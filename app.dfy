/**
 * The running application: the two tables and the DEBUG setting, changed in place by
 * the request handlers. Each handler reads what it needs, checks, then writes, in the
 * order the handler does; its postcondition ties the answer and the new tables to the
 * function in `Jokes` or `Moderation` that specifies it.
 */
module App {
  import opened Wrappers
  import opened Store
  import Words
  import Digits
  import Jokes
  import Moderation

  class Site {
    var users: map<UserId, User>
    var jokes: map<JokeId, Joke>
    var nextJokeId: nat
    var debug: bool

    function State(): Db
      reads this
    {
      Db(users, jokes, nextJokeId)
    }

    ghost predicate Valid()
      reads this
    {
      Store.Valid(State())
    }

    /**
     * A freshly initialised site: the schema's empty tables, then the `init-moderator`
     * command's first user (row id 1, role "Moderator", the default balance 0).
     * The application starts with DEBUG on.
     */
    constructor (nickname: string)
      ensures Valid() && debug
      ensures users == map[1 := User(nickname, MODERATOR, 0)] && jokes == map[] && nextJokeId == 1
      ensures Moderators(users) == {1}
    {
      users, jokes, nextJokeId, debug := map[1 := User(nickname, MODERATOR, 0)], map[], 1, true;
    }

    /** POST /jokes/leave */
    method Leave(actor: UserId, title: string, body: string) returns (outcome: Outcome)
      requires Valid() && actor in users
      modifies this
      ensures Valid() && debug == old(debug)
      ensures Step(outcome, State()) == Jokes.Leave(old(State()), actor, title, body)
    {
      if IsModerator(users[actor].role) {
        return Refused(ModeratorCannotLeave);
      }
      var error := Jokes.FieldError(title, body);
      var existing := Jokes.HasTitle(jokes, actor, title);
      if existing {
        error := Some(DuplicateTitle);
      }
      if error.Some? {
        return Invalid(error.value);
      }
      jokes := jokes[nextJokeId := Joke(title, body, actor, 0.0)];
      nextJokeId := nextJokeId + 1;
      users := users[actor := users[actor].(balance := users[actor].balance + 1)];
      outcome := Done;
    }

    /** GET (rating == None) or POST (rating == Some(r)) of /jokes/view/<jid> */
    method View(actor: UserId, jid: JokeId, rating: Option<real>, merge: (real, real) -> real)
      returns (outcome: Outcome)
      requires Valid() && actor in users
      modifies this
      ensures Valid() && debug == old(debug)
      ensures Step(outcome, State()) == Jokes.View(old(State()), actor, jid, rating, merge)
    {
      var balance := users[actor].balance;
      var role := users[actor].role;
      if balance == 0 && !IsModerator(role) {
        return Refused(OutOfBalance);
      }
      if jid !in jokes {
        return NotFound;
      }
      var owner := jokes[jid].owner;
      if owner == actor {
        return Done;
      }
      ghost var before := State();
      ghost var spec := Jokes.View(before, actor, jid, rating, merge);
      var newUsers := users;
      var newJokes := jokes;
      balance := balance - 1;
      if balance > 0 {
        newUsers := newUsers[actor := newUsers[actor].(balance := newUsers[actor].balance - 1)];
      } else {
        newUsers := newUsers[actor := newUsers[actor].(balance := 0)];
      }
      ghost var charged := Jokes.ViewCharge(before.users[actor].balance);
      assert newUsers == WithBalance(before.users, actor, charged);
      if rating.Some? {
        var current := newJokes[jid].rating;
        var newRating := rating.value;
        if current != 0.0 {
          newRating := merge(current, rating.value);
        }
        assert newRating == Jokes.MergedRating(current, rating.value, merge);
        newJokes := newJokes[jid := newJokes[jid].(rating := newRating)];
        balance := balance + 1;
        newUsers := newUsers[actor := newUsers[actor].(balance := newUsers[actor].balance + 1)];
        WithBalanceTwice(before.users, actor, charged, charged + 1);
        if balance == 0 && !IsModerator(role) {
          // the out-of-balance redirect after a rating: the local balance is back at its
          // starting value, which the gate above showed to be non-zero
          assert false;
        }
      }
      assert before.(users := newUsers, jokes := newJokes) == spec.db;
      users, jokes := newUsers, newJokes;
      outcome := Done;
    }

    /** POST /jokes/edit/<jid> */
    method EditJoke(actor: UserId, jid: JokeId, newBody: string) returns (outcome: Outcome)
      requires Valid() && actor in users
      modifies this
      ensures Valid() && debug == old(debug)
      ensures Step(outcome, State()) == Jokes.EditJoke(old(State()), actor, jid, newBody)
    {
      if jid !in jokes {
        return NotFound;
      }
      var role := users[actor].role;
      if jokes[jid].owner != actor && !IsModerator(role) {
        return Refused(NotOwner);
      }
      var error: Option<FormError> := None;
      if Words.WordCount(newBody) > Jokes.BODY_WORD_LIMIT {
        error := Some(BodyTooLong);
      } else if newBody == "" {
        error := Some(MissingBody);
      }
      if error.Some? {
        return Invalid(error.value);
      }
      jokes := map k | k in jokes ::
        if Jokes.EditMatches(k, jokes[k], jid, actor, role) then jokes[k].(body := newBody) else jokes[k];
      outcome := Done;
    }

    /** POST /jokes/delete/<jid> */
    method Delete(actor: UserId, jid: JokeId) returns (outcome: Outcome)
      requires Valid() && actor in users
      modifies this
      ensures Valid() && debug == old(debug)
      ensures Step(outcome, State()) == Jokes.Delete(old(State()), actor, jid)
    {
      if jid !in jokes {
        return NotFound;
      }
      if jokes[jid].owner != actor && !IsModerator(users[actor].role) {
        return Refused(NotOwner);
      }
      jokes := jokes - {jid};
      outcome := Done;
    }

    /** POST /moderation/edit_user/<target> */
    method EditUser(actor: UserId, target: UserId, balanceField: Option<string>, roleField: Option<string>)
      returns (outcome: Outcome)
      requires Valid() && actor in users
      modifies this
      ensures Valid() && debug == old(debug)
      ensures Step(outcome, State()) == Moderation.EditUser(old(State()), actor, target, balanceField, roleField)
    {
      if !IsModerator(users[actor].role) {
        return Refused(NotModerator);
      }
      var parsed := Digits.ParseBalance(balanceField);
      if parsed.NotANumber? {
        return Invalid(BadBalance);
      }
      if parsed.TooManyDigits? || parsed.value > MAX_INTEGER {
        return Crashed;
      }
      if target in users {
        users := users[target := users[target].(balance := parsed.value, role := Moderation.RoleField(roleField))];
      }
      outcome := Done;
    }

    /** POST /moderation/manage_moderators/<target> */
    method ManageModerators(actor: UserId, target: UserId) returns (outcome: Outcome)
      requires Valid() && actor in users
      modifies this
      ensures Valid() && debug == old(debug)
      ensures Step(outcome, State()) == Moderation.ManageModerators(old(State()), actor, target)
      ensures IsModerator(old(users)[actor].role) ==> |Moderators(users)| >= 1
    {
      ghost var before := State();
      if !IsModerator(users[actor].role) {
        return Refused(NotModerator);
      }
      var count := |Moderators(users)|;
      if count <= 1 && actor == target {
        return Refused(LastModerator);
      }
      if target !in users {
        return NotFound;
      }
      var current := users[target].role;
      var newRole := if current == MODERATOR then USER else MODERATOR;
      users := users[target := users[target].(role := newRole)];
      outcome := Done;
      Moderation.ManageModeratorsKeepsAModerator(before, actor, target);
    }

    /** POST /moderation/toggle_debug */
    method ToggleDebug(actor: UserId) returns (outcome: Outcome)
      requires actor in users
      modifies this`debug
      ensures (outcome, debug) == Moderation.ToggleDebug(users[actor].role, old(debug))
    {
      if !IsModerator(users[actor].role) {
        return Refused(NotModerator);
      }
      debug := !debug;
      outcome := Done;
    }
  }
}
