/**
 * The permission-override builder (PermissionOverrideAction): a staging
 * object for the allowed and denied masks of one override, targeting either
 * a member or a role of a channel. It validates each mask before storing
 * it, builds the request payload, and on success records the finished
 * override in the channel.
 */
module OverrideAction {
  import opened Base
  import opened JavaLong
  import opened Permissions
  import opened Entities
  import Members

  /** checkNull over a collection: true when no element is null (the Java code throws on the first null). */
  method CheckNull<T>(collection: seq<Option<T>>) returns (ok: bool)
    ensures ok <==> forall i :: 0 <= i < |collection| ==> collection[i].Some?
  {
    var i := 0;
    while i < |collection|
      invariant 0 <= i <= |collection|
      invariant forall k :: 0 <= k < i ==> collection[k].Some?
    {
      if collection[i].None? {
        return false;
      }
      i := i + 1;
    }
    return true;
  }

  /** checkNull over an array: true when no element is null (the Java code throws on the first null). */
  method CheckNullArray<T>(arr: array<Option<T>>) returns (ok: bool)
    ensures ok <==> forall i :: 0 <= i < arr.Length ==> arr[i].Some?
  {
    for i := 0 to arr.Length
      invariant forall k :: 0 <= k < i ==> arr[k].Some?
    {
      if arr[i].None? {
        return false;
      }
    }
    return true;
  }

  /** The elements of a varargs array, or None for a null array. */
  function Elements(arr: array?<Option<Permission>>): (r: Option<seq<Option<Permission>>>)
    reads arr
    ensures r.None? <==> arr == null
    ensures r.Some? ==> |r.value| == arr.Length
  {
    if arr == null then None else Some(arr[..])
  }

  /** The JSON body sent to create the override: its type, allow and deny. */
  datatype Payload = Payload(kind: string, allow: Mask, deny: Mask)

  class PermissionOverrideAction {
    var allow: Mask
    var deny: Mask
    const channel: Channel
    const member: Members.Member?
    const role: Option<Role>
    /** Permission.ALL_PERMISSIONS, whose value is not part of this model. */
    const allPermissions: Mask

    /**
     * ALL_PERMISSIONS is not negative, both masks passed the checks of the
     * raw setters, and exactly one target is set.
     */
    ghost predicate Valid()
      reads this
    {
      && SIGN_BIT !in allPermissions
      && CheckBits(allow, allPermissions).None?
      && CheckBits(deny, allPermissions).None?
      && (member != null) != role.Some?
    }

    /** An action that creates an override for a member, with nothing allowed or denied yet. */
    constructor ForMember(channel: Channel, member: Members.Member, allPermissions: Mask)
      requires SIGN_BIT !in allPermissions
      ensures Valid() && IsMember() && !IsRole()
      ensures this.channel == channel && this.member == member && this.allPermissions == allPermissions
      ensures allow == {} && deny == {}
    {
      this.channel := channel;
      this.member := member;
      this.role := None;
      this.allPermissions := allPermissions;
      allow := {};
      deny := {};
      ZeroAccepted(allPermissions);
    }

    /** An action that creates an override for a role, with nothing allowed or denied yet. */
    constructor ForRole(channel: Channel, role: Role, allPermissions: Mask)
      requires SIGN_BIT !in allPermissions
      ensures Valid() && IsRole() && !IsMember()
      ensures this.channel == channel && this.role == Some(role) && this.allPermissions == allPermissions
      ensures allow == {} && deny == {}
    {
      this.channel := channel;
      this.member := null;
      this.role := Some(role);
      this.allPermissions := allPermissions;
      allow := {};
      deny := {};
      ZeroAccepted(allPermissions);
    }

    /** isMember: the action targets a member, and so records its override under that member's key. */
    predicate IsMember()
      reads this
      ensures IsMember() <==> Finished().member.Some?
    {
      member != null
    }

    /** isRole: the action targets a role, and so records its override for that role. */
    predicate IsRole()
      reads this
      ensures IsRole() <==> Finished().role.Some?
    {
      role.Some?
    }

    /**
     * Exactly one of the two kinds holds in a valid state. That the kind
     * never changes follows from `member` and `role` being `const` fields and
     * from the contracts of ForMember and ForRole, not from this lemma.
     */
    lemma ExactlyOneTarget()
      requires Valid()
      ensures IsMember() != IsRole()
    {
    }

    /**
     * getInherited, `~allow & ~deny`: the bits neither allowed nor denied.
     * It shares no bit with either mask, and with them covers every bit.
     */
    function GetInherited(): (r: Mask)
      reads this
      ensures r * allow == {} && r * deny == {}
      ensures r + allow + deny == ALL_BITS
    {
      Not(allow) * Not(deny)
    }

    /**
     * The inherited mask always has the sign bit, since neither stored mask
     * can: as a long, getInherited is negative.
     */
    lemma InheritedIsNegative()
      requires Valid()
      ensures SIGN_BIT in GetInherited()
      ensures LongValue(GetInherited()) < 0
    {
    }

    /** setAllow(long): store allowBits if it passes both checks; otherwise throw and change nothing. */
    method SetAllow(allowBits: Mask) returns (err: Option<IllegalArgument>)
      requires Valid()
      modifies this`allow
      ensures Valid()
      ensures err == CheckBits(allowBits, allPermissions)
      ensures allow == if err.None? then allowBits else old(allow)
    {
      if LongValue(allowBits) < 0 {
        return Some(NegativeBits);
      }
      if LongValue(allowBits) > LongValue(allPermissions) {
        return Some(BitsAboveAll);
      }
      allow := allowBits;
      return None;
    }

    /** setDeny(long): store denyBits if it passes both checks; otherwise throw and change nothing. */
    method SetDeny(denyBits: Mask) returns (err: Option<IllegalArgument>)
      requires Valid()
      modifies this`deny
      ensures Valid()
      ensures err == CheckBits(denyBits, allPermissions)
      ensures deny == if err.None? then denyBits else old(deny)
    {
      if LongValue(denyBits) < 0 {
        return Some(NegativeBits);
      }
      if LongValue(denyBits) > LongValue(allPermissions) {
        return Some(BitsAboveAll);
      }
      deny := denyBits;
      return None;
    }

    /**
     * setAllow(Collection): a null or empty collection resets allow to 0; a
     * null element throws before anything is stored; otherwise the OR of
     * the permissions goes through setAllow(long).
     */
    method SetAllowCollection(permissions: Option<seq<Option<Permission>>>) returns (err: Option<IllegalArgument>)
      requires Valid()
      modifies this`allow
      ensures Valid()
      ensures err == Rejection(ResolvePermissions(permissions), allPermissions)
      ensures allow == if err.None? then ResolvePermissions(permissions).value else old(allow)
      ensures permissions.None? || permissions.value == [] ==> err.None? && allow == {}
    {
      if permissions.None? || |permissions.value| < 1 {
        ZeroAccepted(allPermissions);
        err := SetAllow({});
        return;
      }
      var noNull := CheckNull(permissions.value);
      if !noNull {
        return Some(NullPermission);
      }
      err := SetAllow(RawOf(Present(permissions.value)));
    }

    /** setAllow(Permission...): as the collection form, for a possibly null array. */
    method SetAllowVarargs(permissions: array?<Option<Permission>>) returns (err: Option<IllegalArgument>)
      requires Valid()
      modifies this`allow
      ensures Valid()
      ensures err == Rejection(ResolvePermissions(Elements(permissions)), allPermissions)
      ensures allow == if err.None? then ResolvePermissions(Elements(permissions)).value else old(allow)
      ensures permissions == null || permissions.Length == 0 ==> err.None? && allow == {}
    {
      if permissions == null || permissions.Length < 1 {
        ZeroAccepted(allPermissions);
        err := SetAllow({});
        return;
      }
      var noNull := CheckNullArray(permissions);
      if !noNull {
        return Some(NullPermission);
      }
      err := SetAllow(RawOf(Present(permissions[..])));
    }

    /**
     * setDeny(Collection): a null or empty collection resets deny to 0; a
     * null element throws before anything is stored; otherwise the OR of
     * the permissions goes through setDeny(long).
     */
    method SetDenyCollection(permissions: Option<seq<Option<Permission>>>) returns (err: Option<IllegalArgument>)
      requires Valid()
      modifies this`deny
      ensures Valid()
      ensures err == Rejection(ResolvePermissions(permissions), allPermissions)
      ensures deny == if err.None? then ResolvePermissions(permissions).value else old(deny)
      ensures permissions.None? || permissions.value == [] ==> err.None? && deny == {}
    {
      if permissions.None? || |permissions.value| < 1 {
        ZeroAccepted(allPermissions);
        err := SetDeny({});
        return;
      }
      var noNull := CheckNull(permissions.value);
      if !noNull {
        return Some(NullPermission);
      }
      err := SetDeny(RawOf(Present(permissions.value)));
    }

    /** setDeny(Permission...): as the collection form, for a possibly null array. */
    method SetDenyVarargs(permissions: array?<Option<Permission>>) returns (err: Option<IllegalArgument>)
      requires Valid()
      modifies this`deny
      ensures Valid()
      ensures err == Rejection(ResolvePermissions(Elements(permissions)), allPermissions)
      ensures deny == if err.None? then ResolvePermissions(Elements(permissions)).value else old(deny)
      ensures permissions == null || permissions.Length == 0 ==> err.None? && deny == {}
    {
      if permissions == null || permissions.Length < 1 {
        ZeroAccepted(allPermissions);
        err := SetDeny({});
        return;
      }
      var noNull := CheckNullArray(permissions);
      if !noNull {
        return Some(NullPermission);
      }
      err := SetDeny(RawOf(Present(permissions[..])));
    }

    /**
     * setPermissions(long, long): setAllow then setDeny. Not atomic: when
     * only denyBits is rejected, allow has already been replaced.
     */
    method SetPermissions(allowBits: Mask, denyBits: Mask) returns (err: Option<IllegalArgument>)
      requires Valid()
      modifies this`allow, this`deny
      ensures Valid()
      ensures CheckBits(allowBits, allPermissions).Some? ==>
        err == CheckBits(allowBits, allPermissions) && allow == old(allow) && deny == old(deny)
      ensures CheckBits(allowBits, allPermissions).None? ==>
        allow == allowBits && err == CheckBits(denyBits, allPermissions) &&
        deny == if err.None? then denyBits else old(deny)
    {
      err := SetAllow(allowBits);
      if err.Some? {
        return;
      }
      err := SetDeny(denyBits);
    }

    /**
     * setPermissions(Collection, Collection): setAllow then setDeny with the
     * collection forms, equally not atomic.
     */
    method SetPermissionsCollections(
      grantPermissions: Option<seq<Option<Permission>>>,
      denyPermissions: Option<seq<Option<Permission>>>) returns (err: Option<IllegalArgument>)
      requires Valid()
      modifies this`allow, this`deny
      ensures Valid()
      ensures Rejection(ResolvePermissions(grantPermissions), allPermissions).Some? ==>
        err == Rejection(ResolvePermissions(grantPermissions), allPermissions) &&
        allow == old(allow) && deny == old(deny)
      ensures Rejection(ResolvePermissions(grantPermissions), allPermissions).None? ==>
        allow == ResolvePermissions(grantPermissions).value &&
        err == Rejection(ResolvePermissions(denyPermissions), allPermissions) &&
        deny == if err.None? then ResolvePermissions(denyPermissions).value else old(deny)
    {
      err := SetAllowCollection(grantPermissions);
      if err.Some? {
        return;
      }
      err := SetDenyCollection(denyPermissions);
    }

    /** finalizeData: type "role" for a role target, "member" otherwise, and both masks as they are. */
    function FinalizeData(): (p: Payload)
      reads this
      ensures p.kind == "role" <==> IsRole()
      ensures p.kind == "member" <==> !IsRole()
      ensures p.allow == allow && p.deny == deny
    {
      Payload(if IsRole() then "role" else "member", allow, deny)
    }

    /** The override that handleResponse records: this action's channel, target and masks. */
    function Finished(): (o: PermissionOverride)
      reads this
      ensures o.channel == channel && o.role == role
      ensures o.allow == allow && o.deny == deny
      ensures o.member.Some? <==> member != null
      ensures member != null ==> o.member.value == member.Key()
    {
      PermissionOverride(channel, if member != null then Some(member.Key()) else None, role, allow, deny)
    }

    /** The payload sent and the override recorded agree on the target kind and on both masks. */
    lemma PayloadMatchesOverride()
      requires Valid()
      ensures FinalizeData().kind == "member" <==> Finished().member.Some?
      ensures FinalizeData().kind == "role" <==> Finished().role.Some?
      ensures FinalizeData().allow == Finished().allow && FinalizeData().deny == Finished().deny
    {
    }

    /**
     * handleResponse: on a failed response nothing changes; on success the
     * finished override is put into the channel's map for the target's kind,
     * under the target, replacing any previous entry; the other map is left
     * alone.
     */
    method HandleResponse(ok: bool) returns (result: Option<PermissionOverride>)
      requires Valid()
      modifies channel
      ensures !ok ==> result == None && unchanged(channel)
      ensures ok ==> result == Some(Finished())
      ensures ok && IsMember() ==>
        channel.memberOverrides == old(channel.memberOverrides)[member.Key() := Finished()] &&
        channel.roleOverrides == old(channel.roleOverrides)
      ensures ok && IsRole() ==>
        channel.roleOverrides == old(channel.roleOverrides)[role.value := Finished()] &&
        channel.memberOverrides == old(channel.memberOverrides)
    {
      if !ok {
        return None;
      }
      var override := Finished();
      if IsMember() {
        channel.memberOverrides := channel.memberOverrides[member.Key() := override];
      } else {
        channel.roleOverrides := channel.roleOverrides[role.value := override];
      }
      return Some(override);
    }
  }
}
