/**
 * The per-user record of the group a curator uploads to
 * (`save_user_session` / `load_user_session`, main.py). The source keeps one
 * JSON file per user under `user_sessions/`; here the files are one map.
 */
module Bindings {
  import opened Wrappers
  import GroupIds

  /** A messaging-platform user id. */
  type UserId = int

  class BindingStore {
    /** The `group_id` recorded for each user that has a record. */
    var groupOf: map<UserId, string>

    /** Every recorded id is one the group-id check accepts. */
    ghost predicate Valid()
      reads this
    {
      forall u :: u in groupOf ==> GroupIds.WellFormed(groupOf[u])
    }

    /** A store in which nobody has a record yet. */
    constructor ()
      ensures Valid() && groupOf == map[]
    {
      groupOf := map[];
    }

    /** `save_user_session`: the user's record becomes `group`, overwriting
        any earlier one; nobody else's record changes. */
    method Bind(user: UserId, group: string)
      modifies this
      ensures groupOf == old(groupOf)[user := group]
      ensures GroupIds.WellFormed(group) ==> old(Valid()) ==> Valid()
    {
      groupOf := groupOf[user := group];
    }

    /** `load_user_session`: the recorded group, or None when the user has no record. */
    method Resolve(user: UserId) returns (group: Option<string>)
      ensures group.None? <==> user !in groupOf
      ensures group.Some? ==> group.value == groupOf[user]
      ensures Valid() && group.Some? ==> GroupIds.WellFormed(group.value)
    {
      group := if user in groupOf then Some(groupOf[user]) else None;
    }
  }
}
