# Permission overrides and guild members, modelled in Dafny

This project models two classes of a Discord client library (JDA 3):

- **`PermissionOverrideAction`** builds one permission override for a channel. It is a mutable staging object. It holds an *allow* mask and a *deny* mask, and its target is either a member or a role. Its setters validate a raw mask, or a collection or array of permissions, and then store it, reset it to 0, or throw. It derives the *inherited* mask `~allow & ~deny`. It builds the `(type, allow, deny)` request payload. On a successful response it records the finished override in the channel's member-keyed or role-keyed override map.
- **`MemberImpl`** is a user in a guild. It holds a set of roles and an optional nickname. From these it derives the effective name, the roles sorted greatest first, and the displayed colour. It rejects a channel of another guild, and it defines member identity as the pair (user, guild).

Modelling choices:

- A Java `long` permission mask is modelled as the set of positions of its one bits (`JavaLong.Mask`, positions 0 to 63, 63 being the sign bit). OR becomes union, `&` becomes intersection and `~` becomes the complement. `JavaLong.LongValue` gives the signed value that Java compares.
- Exceptions are returned values. Every exception the modelled code throws on purpose is an `IllegalArgumentException`. `Base.IllegalArgument` names its cause.
- `Permission.ALL_PERMISSIONS` is a constant of the `Permission` enum, which is not part of this model. The builder's constructors take it as a parameter and keep it as a field. They require it to be non-negative.
- The builder is a class with `allow`/`deny` fields. The channel is a class whose two override maps are updated in place. The member is a class whose role set and nickname are fields.
- Several methods take a parameter that stands for code that is not part of this model. Role's natural order is given to the role-order methods as a strict total order `lt`. The effective-permission computation and the permission check of `PermissionUtil` are given as parameters too. `isOwner` takes the guild's owner (`Guild.getOwner()`) as a parameter; nothing in the model ties that owner to the member's guild.

Modules:

- `Base`: Option, Result and the exception causes.
- `JavaLong`: masks and long values.
- `Permissions`: `Permission.getRaw` and the checks on masks.
- `Entities`: roles, users, guilds, overrides and the channel.
- `Members`: `MemberImpl`.
- `OverrideAction`: `PermissionOverrideAction`.

The builder does not keep allow and deny disjoint: each setter validates its own mask independently of the other, so both masks may hold the same bit.

## Model

| member | source | states |
|---|---|---|
| `JavaLong.LongValue` | src/main/java/net/dv8tion/jda/core/requests/restaction/PermissionOverrideAction.java:48-49 | a mask's value as a Java long lies in [-2^63, 2^63) and is negative exactly when the sign bit is set |
| `Permissions.RawOf` | src/main/java/net/dv8tion/jda/core/requests/restaction/PermissionOverrideAction.java:253 | `getRaw` sets exactly the bits of the given permissions, no more and no fewer |
| `Permissions.OffsetsOfCons` | src/main/java/net/dv8tion/jda/core/requests/restaction/PermissionOverrideAction.java:253 | the OR of one permission's bit with the bits of the rest of a sequence is exactly the set of offsets of the whole sequence |
| `Permissions.RawOfDependsOnlyOnElements` | src/main/java/net/dv8tion/jda/core/requests/restaction/PermissionOverrideAction.java:253 | two permission sequences with the same elements, in any order and with any repetition, give the same raw mask |
| `Permissions.CheckBits` | src/main/java/net/dv8tion/jda/core/requests/restaction/PermissionOverrideAction.java:227-228 | a raw mask is rejected as negative exactly when its sign bit is set; it is rejected as too large exactly when it is non-negative but above ALL_PERMISSIONS; it is accepted exactly when 0 <= value <= ALL_PERMISSIONS |
| `Permissions.ZeroAccepted` | src/main/java/net/dv8tion/jda/core/requests/restaction/PermissionOverrideAction.java:250-251 | the reset to 0 always passes both checks when ALL_PERMISSIONS is non-negative |
| `Permissions.PresentOffsets` | src/main/java/net/dv8tion/jda/core/requests/restaction/PermissionOverrideAction.java:252-253 | once no element is null, the OR of the permissions has exactly the offsets of the elements |
| `Permissions.ResolvePermissions` | src/main/java/net/dv8tion/jda/core/requests/restaction/PermissionOverrideAction.java:248-254 | a null or empty argument yields 0; the argument is rejected with a null-permission error exactly when it holds a null element; otherwise the mask has exactly the bits of the given permissions |
| `Permissions.Rejection` | src/main/java/net/dv8tion/jda/core/requests/restaction/PermissionOverrideAction.java:250-253 | a null element raises its own error; otherwise the resolved mask is accepted exactly when it lies in [0, ALL_PERMISSIONS] |
| `OverrideAction.CheckNull` | src/main/java/net/dv8tion/jda/core/requests/restaction/PermissionOverrideAction.java:442-446 | the collection passes exactly when none of its elements is null |
| `OverrideAction.CheckNullArray` | src/main/java/net/dv8tion/jda/core/requests/restaction/PermissionOverrideAction.java:448-453 | the array passes exactly when none of its elements is null |
| `OverrideAction.PermissionOverrideAction.ForMember` | src/main/java/net/dv8tion/jda/core/requests/restaction/PermissionOverrideAction.java:67-73 | a new action targets the given member, is a member action and not a role action, and starts with both masks 0 |
| `OverrideAction.PermissionOverrideAction.ForRole` | src/main/java/net/dv8tion/jda/core/requests/restaction/PermissionOverrideAction.java:87-93 | a new action targets the given role, is a role action and not a member action, and starts with both masks 0 |
| `OverrideAction.PermissionOverrideAction.IsMember` | src/main/java/net/dv8tion/jda/core/requests/restaction/PermissionOverrideAction.java:190-193 | an action is a member action exactly when the override it records names a member |
| `OverrideAction.PermissionOverrideAction.IsRole` | src/main/java/net/dv8tion/jda/core/requests/restaction/PermissionOverrideAction.java:203-206 | an action is a role action exactly when the override it records names a role |
| `OverrideAction.PermissionOverrideAction.ExactlyOneTarget` | src/main/java/net/dv8tion/jda/core/requests/restaction/PermissionOverrideAction.java:190-206 | exactly one of isMember and isRole holds in every valid state (that the kind never changes comes from the final fields and the constructors) |
| `OverrideAction.PermissionOverrideAction.GetInherited` | src/main/java/net/dv8tion/jda/core/requests/restaction/PermissionOverrideAction.java:162-165 | the inherited mask shares no bit with allow or with deny, and together the three cover every bit |
| `OverrideAction.PermissionOverrideAction.InheritedIsNegative` | src/main/java/net/dv8tion/jda/core/requests/restaction/PermissionOverrideAction.java:162-165 | for any reachable state, the inherited mask has the sign bit, so as a long it is negative |
| `OverrideAction.PermissionOverrideAction.SetAllow` | src/main/java/net/dv8tion/jda/core/requests/restaction/PermissionOverrideAction.java:225-231 | a rejected mask raises the check's error and leaves allow as it was; an accepted mask becomes allow; deny and the target are never touched |
| `OverrideAction.PermissionOverrideAction.SetDeny` | src/main/java/net/dv8tion/jda/core/requests/restaction/PermissionOverrideAction.java:296-302 | a rejected mask raises the check's error and leaves deny as it was; an accepted mask becomes deny; allow and the target are never touched |
| `OverrideAction.PermissionOverrideAction.SetAllowCollection` | src/main/java/net/dv8tion/jda/core/requests/restaction/PermissionOverrideAction.java:248-254 | a null or empty collection resets allow to 0 without error; a null element raises an error before anything is stored; otherwise allow becomes the OR of the permissions, when that mask is accepted |
| `OverrideAction.PermissionOverrideAction.SetAllowVarargs` | src/main/java/net/dv8tion/jda/core/requests/restaction/PermissionOverrideAction.java:271-277 | the same as the collection form, for a possibly null array |
| `OverrideAction.PermissionOverrideAction.SetDenyCollection` | src/main/java/net/dv8tion/jda/core/requests/restaction/PermissionOverrideAction.java:319-325 | a null or empty collection resets deny to 0 without error; a null element raises an error before anything is stored; otherwise deny becomes the OR of the permissions, when that mask is accepted |
| `OverrideAction.PermissionOverrideAction.SetDenyVarargs` | src/main/java/net/dv8tion/jda/core/requests/restaction/PermissionOverrideAction.java:342-348 | the same as the collection form, for a possibly null array |
| `OverrideAction.PermissionOverrideAction.SetPermissions` | src/main/java/net/dv8tion/jda/core/requests/restaction/PermissionOverrideAction.java:367-372 | behaves as setAllow then setDeny; a rejected allow changes nothing; a rejected deny leaves the new allow in place (not atomic) |
| `OverrideAction.PermissionOverrideAction.SetPermissionsCollections` | src/main/java/net/dv8tion/jda/core/requests/restaction/PermissionOverrideAction.java:390-395 | behaves as the collection forms of setAllow then setDeny, and is equally not atomic |
| `OverrideAction.PermissionOverrideAction.FinalizeData` | src/main/java/net/dv8tion/jda/core/requests/restaction/PermissionOverrideAction.java:398-408 | the payload's type is "role" exactly for a role target and "member" otherwise; it carries allow and deny unchanged |
| `OverrideAction.PermissionOverrideAction.Finished` | src/main/java/net/dv8tion/jda/core/requests/restaction/PermissionOverrideAction.java:420 | the override built on success has this action's channel, role and both masks, and names a member, by its key, exactly when the action targets one |
| `OverrideAction.PermissionOverrideAction.PayloadMatchesOverride` | src/main/java/net/dv8tion/jda/core/requests/restaction/PermissionOverrideAction.java:399-420 | the payload sent and the override recorded on success agree on the target kind and on both masks |
| `OverrideAction.PermissionOverrideAction.HandleResponse` | src/main/java/net/dv8tion/jda/core/requests/restaction/PermissionOverrideAction.java:410-440 | a failed response changes nothing; on success the override with the current masks is put into the map for the target's kind, under the target, replacing any previous entry; every other key and the other map are left unchanged |
| `Members.Member.constructor` | src/main/java/net/dv8tion/jda/core/entities/impl/MemberImpl.java:42-47 | a new member has the given user and guild, holds no role and has no nickname |
| `Members.Member.EffectiveName` | src/main/java/net/dv8tion/jda/core/entities/impl/MemberImpl.java:97-101 | the nickname when it is set, the user's name otherwise |
| `Members.Member.SetNickname` | src/main/java/net/dv8tion/jda/core/entities/impl/MemberImpl.java:193-197 | after setting a nickname n, the effective name is n, or the user's name when n is null; roles and identity are unchanged |
| `Members.GreatestExists` | src/main/java/net/dv8tion/jda/core/entities/impl/MemberImpl.java:106-107 | under a strict total order, every non-empty role set has a greatest role, so sorting in reverse order has a first element to pick |
| `Members.Member.GetRoles` | src/main/java/net/dv8tion/jda/core/entities/impl/MemberImpl.java:103-110 | the list holds every held role and nothing else, each exactly once, in strictly descending order; the role set is not modified |
| `Members.Member.GetColor` | src/main/java/net/dv8tion/jda/core/entities/impl/MemberImpl.java:112-121 | null exactly when no held role has a colour; otherwise the colour of a held role such that no greater held role has a colour, which is the first coloured role in getRoles order |
| `Members.Member.GetPermissionsIn` | src/main/java/net/dv8tion/jda/core/entities/impl/MemberImpl.java:131-140 | a channel of another guild is rejected, and only such a channel; otherwise the result is the delegated effective permission, unchanged |
| `Members.Member.HasPermission` | src/main/java/net/dv8tion/jda/core/entities/impl/MemberImpl.java:148-154 | a null collection is rejected, and only that; otherwise the delegated check is asked about exactly the collection's elements |
| `Members.Member.HasPermissionIn` | src/main/java/net/dv8tion/jda/core/entities/impl/MemberImpl.java:162-168 | a null collection is rejected, and only that; otherwise the delegated channel check is asked about exactly that channel and the collection's elements |
| `Members.Member.Equals` | src/main/java/net/dv8tion/jda/core/entities/impl/MemberImpl.java:222-230 | an object equals this member exactly when it is a member with the same user and the same guild |
| `Members.Member.EqualsIsReflexive` | src/main/java/net/dv8tion/jda/core/entities/impl/MemberImpl.java:222-230 | every member equals itself |
| `Members.Member.EqualsIsSymmetric` | src/main/java/net/dv8tion/jda/core/entities/impl/MemberImpl.java:222-230 | member equality is symmetric |
| `Members.Member.EqualsIsTransitive` | src/main/java/net/dv8tion/jda/core/entities/impl/MemberImpl.java:222-230 | member equality is transitive |
| `Members.Member.IsOwner` | src/main/java/net/dv8tion/jda/core/entities/impl/MemberImpl.java:188-191 | a member is the owner exactly when the guild's owner is known and has the same user and guild |

## Left out

- REST transport: the `RestAction` plumbing, the compiled route, rate limiting, the `api` and `route` constructor arguments, the `onSuccess`/`onFailure` callbacks and JSON building. The payload is a plain `(type, allow, deny)` value and the response is an `ok` flag.
- `PermissionUtil` is not part of this model. That covers `getEffectivePermission`, `checkPermission` and the three `canInteract` overloads. `GetPermissionsIn` takes the resolved mask as a parameter. `HasPermission` and `HasPermissionIn` take the check as a function parameter. The guild-level `getPermissions()` and the varargs `hasPermission` forms only delegate, so they are not modelled. `canInteract` is not modelled.
- The `Permission` enum is not part of this model: the bit offsets, the value of `ALL_PERMISSIONS`, `isChannel`, and `getPermissions(long)`. So `getAllowedPermissions`, `getDeniedPermissions` and `getInheritedPermissions` are left out, and `GetPermissionsIn` returns a mask rather than a list of permissions. `getAllow` and `getDeny` only return the fields.
- The `TextChannelImpl`/`VoiceChannelImpl` dispatch in `handleResponse`. One `Channel` class with one member-keyed map and one role-keyed map stands for both.
- A null member or role passed to a builder constructor is not modelled. In the source neither `isMember` nor `isRole` would then hold. `Valid` excludes that state.
- Null channel, guild and user references are not modelled: the `Channel`, `Guild` and `User` parameters and fields are non-null types. In the source such nulls end in a `NullPointerException`, for example `getPermissions(null)` (MemberImpl.java:134) or `handleResponse` of a builder constructed with a null channel (PermissionOverrideAction.java:427-436).
- `User`, `Guild` and `Role` equality are modelled as equality of their values. Their own `equals` methods are not part of this model. Member-keyed maps are keyed by the (user, guild) pair that member equality compares.
- `Members.Member.Equals` models `instanceof Member` with the one member class of the model; other implementations of the `Member` interface are not modelled.
- `Members.Member.GetRoles`: the copy into an `ArrayList` and the library sort are modelled as one loop that repeatedly takes the greatest remaining role. The returned list is the same, but the intermediate list is not modelled.
- `getRoleSet` returns the live `HashSet` so that other code can change it in place. That aliasing is not modelled. In the model, such changes are assignments to the `roles` field.
- Plain storage in `MemberImpl` is left out because it has no logic: the voice state, game, online status and join date, with their getters and setters. So are `hashCode`, `toString`, `getAsMention` and `getJDA`.
- Exceptions are returned as values rather than thrown. The exception messages are not modelled.
