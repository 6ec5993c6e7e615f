/**
 * The moderator pages: the role guard, the user list, the direct balance and role
 * edit, the moderator toggle and the debug switch.
 */
module Moderation {
  import opened Wrappers
  import opened Store
  import Digits

  /** The guard in front of every moderator page: any role but "Moderator" is turned away. */
  function ModeratorRequired(role: Role): (refusal: Option<Refusal>)
    ensures refusal == None <==> IsModerator(role)
    ensures refusal == None || refusal == Some(NotModerator)
  {
    if IsModerator(role) then None else Some(NotModerator)
  }

  /** The rows of the `users` page. */
  function Users(db: Db, actor: UserId): (r: (Outcome, map<UserId, User>))
    requires actor in db.users
    ensures r.0 == Done <==> IsModerator(db.users[actor].role)
    ensures r.0 == Done ==> r.1 == db.users
    ensures r.0 != Done ==> r == (Refused(NotModerator), map[])
  {
    match ModeratorRequired(db.users[actor].role)
    case Some(refusal) => (Refused(refusal), map[])
    case None => (Done, db.users)
  }

  /** The role column written by a user edit: a missing form field is stored as NULL. */
  function RoleField(field: Option<string>): (role: Role)
    ensures role == Null <==> field.None?
    ensures field.Some? ==> role.name == field.value
  {
    match field
    case Some(name) => Named(name)
    case None => Null
  }

  /**
   * The POST of `edit_user`: with a digit-string balance, sets the target's balance and
   * role (an UPDATE of no rows when the target does not exist); otherwise changes nothing.
   * Two digit strings end in a server error with nothing written, whether or not the
   * target exists: one longer than `int()` accepts, and one whose value is above the
   * 64-bit INTEGER range, which cannot be bound as a query parameter.
   */
  function EditUser(db: Db, actor: UserId, target: UserId, balanceField: Option<string>, roleField: Option<string>): (r: Step)
    requires actor in db.users
    ensures !IsModerator(db.users[actor].role) ==> r == Step(Refused(NotModerator), db)
    ensures IsModerator(db.users[actor].role) && Digits.ParseBalance(balanceField).NotANumber? ==>
      r == Step(Invalid(BadBalance), db)
    ensures
      && IsModerator(db.users[actor].role)
      && (|| Digits.ParseBalance(balanceField).TooManyDigits?
          || (Digits.ParseBalance(balanceField).Number? && Digits.ParseBalance(balanceField).value > MAX_INTEGER))
      ==> r == Step(Crashed, db)
    ensures r.outcome == Done <==>
      && IsModerator(db.users[actor].role)
      && Digits.ParseBalance(balanceField).Number?
      && Digits.ParseBalance(balanceField).value <= MAX_INTEGER
    ensures r.outcome != Done || target !in db.users ==> r.db == db
    ensures r.db.jokes == db.jokes && r.db.nextJokeId == db.nextJokeId
    ensures r.db.users.Keys == db.users.Keys
    ensures forall u :: u in db.users && u != target ==> r.db.users[u] == db.users[u]
    ensures r.outcome == Done && target in db.users ==>
      && r.db.users[target].nickname == db.users[target].nickname
      && 0 <= r.db.users[target].balance <= MAX_INTEGER
      && r.db.users[target].balance == Digits.ParseBalance(balanceField).value
      && r.db.users[target].role == RoleField(roleField)
    ensures Valid(db) ==> Valid(r.db)
  {
    match ModeratorRequired(db.users[actor].role)
    case Some(refusal) => Step(Refused(refusal), db)
    case None =>
      match Digits.ParseBalance(balanceField)
      case NotANumber => Step(Invalid(BadBalance), db)
      case TooManyDigits => Step(Crashed, db)
      case Number(n) =>
        if n > MAX_INTEGER then Step(Crashed, db)
        else if target in db.users then
          var u := db.users[target];
          Step(Done, db.(users := db.users[target := u.(balance := n, role := RoleField(roleField))]))
        else Step(Done, db)
  }

  /**
   * A balance written in decimal is stored as that number when it fits in 64 bits;
   * a larger one makes the request fail and writes nothing.
   */
  lemma EditUserStoresDecimalBalance(db: Db, actor: UserId, target: UserId, n: nat, roleField: Option<string>)
    requires actor in db.users && IsModerator(db.users[actor].role) && target in db.users
    ensures n <= MAX_INTEGER ==>
      EditUser(db, actor, target, Some(Digits.ShowNat(n)), roleField) ==
      Step(Done, db.(users := db.users[target := db.users[target].(balance := n, role := RoleField(roleField))]))
    ensures n > MAX_INTEGER ==> EditUser(db, actor, target, Some(Digits.ShowNat(n)), roleField) == Step(Crashed, db)
  {
    Digits.ParseBalanceShowNat(n);
    if n <= MAX_INTEGER {
      Digits.ShowNatInt64(n);
    }
  }

  /** The direct edit has no last-moderator check: the only moderator can demote themself. */
  lemma EditUserCanRemoveLastModerator()
    ensures
      var db := Db(map[1 := User("mod", MODERATOR, 0), 2 := User("ann", USER, 3)], map[], 1);
      && |Moderators(db.users)| == 1
      && |Moderators(EditUser(db, 1, 1, Some("5"), Some("User")).db.users)| == 0
  {
    var db := Db(map[1 := User("mod", MODERATOR, 0), 2 := User("ann", USER, 3)], map[], 1);
    assert Moderators(db.users) == {1};
    assert Digits.ParseBalance(Some("5")).Number?;
    var after := EditUser(db, 1, 1, Some("5"), Some("User")).db.users;
    assert Moderators(after) == {};
  }

  /** The role the moderator toggle gives: "Moderator" becomes "User", anything else "Moderator". */
  function ToggledRole(role: Role): (toggled: Role)
    ensures IsModerator(toggled) <==> !IsModerator(role)
    ensures toggled == USER || toggled == MODERATOR
  {
    if role == MODERATOR then USER else MODERATOR
  }

  lemma ToggledRoleTwice(role: Role)
    requires role == USER || role == MODERATOR
    ensures ToggledRole(ToggledRole(role)) == role
  {
  }

  /** The POST of `manage_moderators`. */
  function ManageModerators(db: Db, actor: UserId, target: UserId): (r: Step)
    requires actor in db.users
    ensures !IsModerator(db.users[actor].role) ==> r == Step(Refused(NotModerator), db)
    ensures IsModerator(db.users[actor].role) && target == actor && |Moderators(db.users)| <= 1 ==>
      r == Step(Refused(LastModerator), db)
    ensures r.outcome == NotFound <==>
      IsModerator(db.users[actor].role) && !(target == actor && |Moderators(db.users)| <= 1) && target !in db.users
    ensures r.outcome == Done <==>
      && IsModerator(db.users[actor].role)
      && !(target == actor && |Moderators(db.users)| <= 1)
      && target in db.users
    ensures r.outcome != Done ==> r.db == db
    ensures r.db.jokes == db.jokes && r.db.nextJokeId == db.nextJokeId
    ensures r.db.users.Keys == db.users.Keys
    ensures forall u :: u in db.users && u != target ==> r.db.users[u] == db.users[u]
    ensures r.outcome == Done ==>
      && target in db.users
      && r.db.users[target] == db.users[target].(role := ToggledRole(db.users[target].role))
    ensures Valid(db) ==> Valid(r.db)
  {
    match ModeratorRequired(db.users[actor].role)
    case Some(refusal) => Step(Refused(refusal), db)
    case None =>
      var count := |Moderators(db.users)|;
      if count <= 1 && actor == target then Step(Refused(LastModerator), db)
      else if target !in db.users then Step(NotFound, db)
      else
        var u := db.users[target];
        Step(Done, db.(users := db.users[target := u.(role := ToggledRole(u.role))]))
  }

  /** A moderator using the toggle can never leave the site without a moderator. */
  lemma ManageModeratorsKeepsAModerator(db: Db, actor: UserId, target: UserId)
    requires actor in db.users && IsModerator(db.users[actor].role)
    ensures |Moderators(ManageModerators(db, actor, target).db.users)| >= 1
  {
    var after := ManageModerators(db, actor, target).db.users;
    if target == actor && after != db.users {
      assert Moderators(after) == Moderators(db.users) - {actor};
    } else {
      assert actor in Moderators(after);
    }
  }

  /** Toggling another user's role twice restores the tables, for the roles User and Moderator. */
  lemma ManageModeratorsTwiceRestores(db: Db, actor: UserId, target: UserId)
    requires actor in db.users && IsModerator(db.users[actor].role)
    requires target in db.users && target != actor
    requires db.users[target].role == USER || db.users[target].role == MODERATOR
    ensures ManageModerators(ManageModerators(db, actor, target).db, actor, target) == Step(Done, db)
  {
  }

  /** The POST of `toggle_debug`: a moderator flips the DEBUG setting. */
  function ToggleDebug(role: Role, debug: bool): (r: (Outcome, bool))
    ensures r.0 == Done <==> IsModerator(role)
    ensures r.0 != Done ==> r == (Refused(NotModerator), debug)
    ensures r.0 == Done ==> r.1 != debug
  {
    match ModeratorRequired(role)
    case Some(refusal) => (Refused(refusal), debug)
    case None => (Done, !debug)
  }

  lemma ToggleDebugTwice(role: Role, debug: bool)
    ensures ToggleDebug(role, ToggleDebug(role, debug).1).1 == debug
  {
  }
}
