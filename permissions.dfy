/**
 * Permission.getRaw and the checks that the override builder applies to a
 * mask, or to the permissions it is built from, before storing it.
 */
module Permissions {
  import opened Base
  import opened JavaLong

  /**
   * One constant of the Permission enum, reduced to the offset of its bit
   * (its raw value is 1 << offset). The enum's table of offsets is not part
   * of this model.
   */
  datatype Permission = Permission(offset: Bit)

  /** Permission.getRaw over several permissions: the OR of their raw values. */
  function RawOf(ps: seq<Permission>): (r: Mask)
    ensures forall b: Bit :: b in r <==> exists i :: 0 <= i < |ps| && ps[i].offset == b
  {
    if ps == [] then {}
    else
      var rest := RawOf(ps[1..]);
      OffsetsOfCons(ps, rest);
      {ps[0].offset} + rest
  }

  /** The bits of the first permission together with those of the rest are those of the whole sequence. */
  lemma OffsetsOfCons(ps: seq<Permission>, rest: Mask)
    requires ps != []
    requires forall b: Bit :: b in rest <==> exists j :: 0 <= j < |ps[1..]| && ps[1..][j].offset == b
    ensures forall b: Bit :: b in {ps[0].offset} + rest <==> exists i :: 0 <= i < |ps| && ps[i].offset == b
  {
    forall b: Bit ensures b in {ps[0].offset} + rest <==> exists i :: 0 <= i < |ps| && ps[i].offset == b {
      if b in rest {
        var j :| 0 <= j < |ps[1..]| && ps[1..][j].offset == b;
        assert ps[j + 1].offset == b;
      }
      if exists i :: 0 <= i < |ps| && ps[i].offset == b {
        var i :| 0 <= i < |ps| && ps[i].offset == b;
        if i > 0 { assert ps[1..][i - 1].offset == b; }
      }
    }
  }

  /** getRaw depends only on which permissions are given, not on their order or repetition. */
  lemma RawOfDependsOnlyOnElements(ps: seq<Permission>, qs: seq<Permission>)
    requires forall p :: p in ps <==> p in qs
    ensures RawOf(ps) == RawOf(qs)
  {
    forall b: Bit | b in RawOf(ps) ensures b in RawOf(qs) {
      var i :| 0 <= i < |ps| && ps[i].offset == b;
      assert ps[i] in qs;
    }
    forall b: Bit | b in RawOf(qs) ensures b in RawOf(ps) {
      var i :| 0 <= i < |qs| && qs[i].offset == b;
      assert qs[i] in ps;
    }
  }

  /**
   * The two checks of setAllow(long) and setDeny(long), in order: the mask
   * must not be negative, then not greater than ALL_PERMISSIONS, both as
   * signed longs. None means the mask is accepted.
   */
  function CheckBits(bits: Mask, all: Mask): (r: Option<IllegalArgument>)
    ensures r == Some(NegativeBits) <==> SIGN_BIT in bits
    ensures r == Some(BitsAboveAll) <==> SIGN_BIT !in bits && LongValue(bits) > LongValue(all)
    ensures r.None? <==> 0 <= LongValue(bits) <= LongValue(all)
  {
    if LongValue(bits) < 0 then Some(NegativeBits)
    else if LongValue(bits) > LongValue(all) then Some(BitsAboveAll)
    else None
  }

  /** The reset to 0 always passes the checks when ALL_PERMISSIONS is not negative. */
  lemma ZeroAccepted(all: Mask)
    requires SIGN_BIT !in all
    ensures CheckBits({}, all) == None
  {
    ZeroValue();
  }

  /** The permissions of a sequence that is known to hold no null. */
  function Present(s: seq<Option<Permission>>): (ps: seq<Permission>)
    requires forall i :: 0 <= i < |s| ==> s[i].Some?
    ensures |ps| == |s| && forall i :: 0 <= i < |s| ==> s[i] == Some(ps[i])
  {
    seq(|s|, i requires 0 <= i < |s| => s[i].value)
  }

  /** The bits of the present permissions are the offsets of the elements that are not null. */
  lemma PresentOffsets(s: seq<Option<Permission>>)
    requires forall i :: 0 <= i < |s| ==> s[i].Some?
    ensures forall b: Bit :: b in RawOf(Present(s)) <==> exists i :: 0 <= i < |s| && s[i] == Some(Permission(b))
  {
    var ps := Present(s);
    forall b: Bit ensures b in RawOf(ps) <==> exists i :: 0 <= i < |s| && s[i] == Some(Permission(b)) {
      if exists i :: 0 <= i < |s| && s[i] == Some(Permission(b)) {
        var i :| 0 <= i < |s| && s[i] == Some(Permission(b));
        assert ps[i].offset == b;
      }
    }
  }

  /**
   * What the collection and varargs setters hand on to the raw setter: 0
   * for a null or empty argument, NullPermission when an element is null,
   * and otherwise the OR of the given permissions.
   */
  function ResolvePermissions(perms: Option<seq<Option<Permission>>>): (r: Result<Mask>)
    ensures perms.None? || perms.value == [] ==> r == Success({})
    ensures r.Failure? <==> perms.Some? && exists i :: 0 <= i < |perms.value| && perms.value[i].None?
    ensures r.Failure? ==> r.error == NullPermission
    ensures r.Success? && perms.Some? ==> forall b: Bit :: b in r.value <==>
      exists i :: 0 <= i < |perms.value| && perms.value[i] == Some(Permission(b))
  {
    if perms.None? || |perms.value| < 1 then Success({})
    else if exists i :: 0 <= i < |perms.value| && perms.value[i].None? then Failure(NullPermission)
    else
      var ps := Present(perms.value);
      PresentOffsets(perms.value);
      Success(RawOf(ps))
  }

  /**
   * The exception, if any, that a setter taking permissions raises: the one
   * found while resolving them, else the one of the raw setter.
   */
  function Rejection(resolved: Result<Mask>, all: Mask): (r: Option<IllegalArgument>)
    ensures resolved.Failure? ==> r == Some(resolved.error)
    ensures resolved.Success? ==> (r.None? <==> 0 <= LongValue(resolved.value) <= LongValue(all))
  {
    match resolved
    case Failure(e) => Some(e)
    case Success(m) => CheckBits(m, all)
  }
}
