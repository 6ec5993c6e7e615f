/**
 * The joke handlers (leave, my_jokes, list, view, edit_joke, delete), each as the
 * function from the tables before a request to its outcome and the tables after.
 * The acting user is the logged-in user, whose row exists.
 */
module Jokes {
  import opened Wrappers
  import opened Store
  import Words

  const TITLE_WORD_LIMIT: nat := 10
  const BODY_WORD_LIMIT: nat := 100

  /** A user who may not list or view other users' jokes: no balance left and not a moderator. */
  predicate Gated(u: User) {
    u.balance == 0 && !IsModerator(u.role)
  }

  // ---------------------------------------------------------------- leave

  /** The title and body checks of the joke form, first failure wins. */
  function FieldError(title: string, body: string): (e: Option<FormError>)
    ensures e == None <==>
      && title != ""
      && Words.WordCount(title) <= TITLE_WORD_LIMIT
      && Words.WordCount(body) <= BODY_WORD_LIMIT
      && body != ""
    ensures title == "" ==> e == Some(MissingTitle)
    ensures e != Some(DuplicateTitle) && e != Some(BadBalance)
  {
    if title == "" then Some(MissingTitle)
    else if Words.WordCount(title) > TITLE_WORD_LIMIT then Some(TitleTooLong)
    else if Words.WordCount(body) > BODY_WORD_LIMIT then Some(BodyTooLong)
    else if body == "" then Some(MissingBody)
    else None
  }

  /** Only the empty string counts as missing: a title or body of whitespace alone passes. */
  lemma BlankFieldsAccepted(title: string, body: string)
    requires title != "" && Words.Blank(title)
    requires body != "" && Words.Blank(body)
    ensures FieldError(title, body) == None
  {
  }

  /** The author already has a joke with this title. */
  predicate HasTitle(jokes: map<JokeId, Joke>, owner: UserId, title: string) {
    exists k :: k in jokes && jokes[k].owner == owner && jokes[k].title == title
  }

  function Leave(db: Db, actor: UserId, title: string, body: string): (r: Step)
    requires actor in db.users
    ensures IsModerator(db.users[actor].role) ==> r == Step(Refused(ModeratorCannotLeave), db)
    ensures !IsModerator(db.users[actor].role) && HasTitle(db.jokes, actor, title) ==>
      r == Step(Invalid(DuplicateTitle), db)
    ensures r.outcome == Done <==>
      !IsModerator(db.users[actor].role) && !HasTitle(db.jokes, actor, title) && FieldError(title, body) == None
    ensures r.outcome != Done ==> r.db == db
    ensures r.outcome == Done ==>
      && OnlyBalanceOf(db.users, r.db.users, actor)
      && r.db.users[actor].balance == db.users[actor].balance + 1
      && r.db.nextJokeId > db.nextJokeId
    ensures r.outcome == Done && Valid(db) ==>
      InsertedAt(db.jokes, r.db.jokes, db.nextJokeId, Joke(title, body, actor, 0.0))
    ensures Valid(db) ==> Valid(r.db)
  {
    var u := db.users[actor];
    if IsModerator(u.role) then Step(Refused(ModeratorCannotLeave), db)
    else
      var error := if HasTitle(db.jokes, actor, title) then Some(DuplicateTitle) else FieldError(title, body);
      match error
      case Some(e) => Step(Invalid(e), db)
      case None =>
        var added := db.jokes[db.nextJokeId := Joke(title, body, actor, 0.0)];
        Step(Done, Db(WithBalance(db.users, actor, u.balance + 1), added, db.nextJokeId + 1))
  }

  // ---------------------------------------------------------------- my_jokes and list

  /** The rows of `my_jokes`: the actor's own jokes. */
  function MyJokes(db: Db, actor: UserId): (m: map<JokeId, Joke>)
    ensures forall k :: k in m <==> k in db.jokes && db.jokes[k].owner == actor
    ensures forall k :: k in m ==> m[k] == db.jokes[k]
  {
    map k | k in db.jokes && db.jokes[k].owner == actor :: db.jokes[k]
  }

  /**
   * The rows of `list`: everyone else's jokes, unless the balance gate refuses.
   * The query joins each joke with its author's `user` row; under `Valid` every owner
   * exists, so the join drops no joke and is left out here.
   */
  function List(db: Db, actor: UserId): (r: (Outcome, map<JokeId, Joke>))
    requires actor in db.users
    ensures r.0 == Done || r.0 == Refused(OutOfBalance)
    ensures r.0 == Refused(OutOfBalance) <==> Gated(db.users[actor])
    ensures r.0 == Refused(OutOfBalance) ==> r.1 == map[]
    ensures r.0 == Done ==> forall k :: k in r.1 <==> k in db.jokes && db.jokes[k].owner != actor
    ensures forall k :: k in r.1 ==> k in db.jokes && r.1[k] == db.jokes[k]
  {
    if Gated(db.users[actor]) then (Refused(OutOfBalance), map[])
    else (Done, map k | k in db.jokes && db.jokes[k].owner != actor :: db.jokes[k])
  }

  /** A user who passes the gate sees, between `my_jokes` and `list`, every joke exactly once. */
  lemma MyJokesAndListPartition(db: Db, actor: UserId)
    requires actor in db.users && !Gated(db.users[actor])
    ensures MyJokes(db, actor).Keys !! List(db, actor).1.Keys
    ensures MyJokes(db, actor).Keys + List(db, actor).1.Keys == db.jokes.Keys
  {
  }

  // ---------------------------------------------------------------- view

  /** The balance a non-owner keeps after viewing: one less, but never below zero. */
  function ViewCharge(balance: int): (b: int)
    ensures b >= 0
    ensures balance >= 1 ==> b == balance - 1
    ensures balance < 1 ==> b == 0
  {
    var left := balance - 1;
    if left > 0 then balance - 1 else 0
  }

  /** The stored rating after a new rating `submitted`; `merge` stands for `round((C + R) / 2, 1)`. */
  function MergedRating(current: real, submitted: real, merge: (real, real) -> real): real {
    if current != 0.0 then merge(current, submitted) else submitted
  }

  /**
   * Viewing joke `jid`; `rating` is the submitted rating of a POST, None for a GET.
   * A non-owner pays the view cost; a non-owner's POST also rates the joke and earns one unit.
   * The lookup joins the joke with its author's `user` row; under `Valid` the author exists,
   * so a joke is found exactly when its id is in the table.
   */
  function View(db: Db, actor: UserId, jid: JokeId, rating: Option<real>, merge: (real, real) -> real): (r: Step)
    requires actor in db.users
    ensures Gated(db.users[actor]) ==> r == Step(Refused(OutOfBalance), db)
    ensures !Gated(db.users[actor]) && jid !in db.jokes ==> r == Step(NotFound, db)
    ensures r.outcome == Done <==> !Gated(db.users[actor]) && jid in db.jokes
    ensures r.outcome != Done ==> r.db == db
    ensures r.db.nextJokeId == db.nextJokeId
    ensures OnlyBalanceOf(db.users, r.db.users, actor)
    ensures OnlyJokeChanged(db.jokes, r.db.jokes, jid)
    ensures r.outcome == Done && db.jokes[jid].owner == actor ==> r.db == db
    ensures r.outcome == Done && db.jokes[jid].owner != actor && rating.None? ==>
      r.db.users[actor].balance == ViewCharge(db.users[actor].balance) && r.db.jokes == db.jokes
    ensures r.outcome == Done && db.jokes[jid].owner != actor && rating.Some? ==>
      && r.db.users[actor].balance == ViewCharge(db.users[actor].balance) + 1
      && r.db.jokes[jid] == db.jokes[jid].(rating := MergedRating(db.jokes[jid].rating, rating.value, merge))
    ensures Valid(db) ==> Valid(r.db)
  {
    var u := db.users[actor];
    if Gated(u) then Step(Refused(OutOfBalance), db)
    else if jid !in db.jokes then Step(NotFound, db)
    else
      var j := db.jokes[jid];
      if j.owner == actor then Step(Done, db)
      else
        var charged := ViewCharge(u.balance);
        match rating
        case None => Step(Done, db.(users := WithBalance(db.users, actor, charged)))
        case Some(x) =>
          var rated := db.jokes[jid := j.(rating := MergedRating(j.rating, x, merge))];
          Step(Done, db.(users := WithBalance(db.users, actor, charged + 1), jokes := rated))
  }

  /** A first rating is stored as submitted. */
  lemma FirstRatingStoredAsSubmitted(db: Db, actor: UserId, jid: JokeId, x: real, merge: (real, real) -> real)
    requires actor in db.users && !Gated(db.users[actor])
    requires jid in db.jokes && db.jokes[jid].owner != actor && db.jokes[jid].rating == 0.0
    ensures View(db, actor, jid, Some(x), merge).db.jokes[jid].rating == x
  {
  }

  /** Rating someone else's joke costs a non-moderator nothing overall: the reward repays the view. */
  lemma RatingKeepsNonModeratorBalance(db: Db, actor: UserId, jid: JokeId, x: real, merge: (real, real) -> real)
    requires Valid(db) && actor in db.users && !IsModerator(db.users[actor].role)
    ensures View(db, actor, jid, Some(x), merge).db.users == db.users
  {
  }

  // ---------------------------------------------------------------- edit_joke

  /** The body checks of the edit form, first failure wins. */
  function EditError(body: string): (e: Option<FormError>)
    ensures e == None <==> Words.WordCount(body) <= BODY_WORD_LIMIT && body != ""
    ensures e.Some? ==> e.value == BodyTooLong || e.value == MissingBody
  {
    if Words.WordCount(body) > BODY_WORD_LIMIT then Some(BodyTooLong)
    else if body == "" then Some(MissingBody)
    else None
  }

  /**
   * The row filter of the edit UPDATE as SQL parses it: `AND` binds tighter than `OR`,
   * and the unresolved "Moderator" is read as a string, so a moderator matches every row.
   */
  predicate EditMatches(k: JokeId, j: Joke, jid: JokeId, actor: UserId, role: Role) {
    (k == jid && j.owner == actor) || IsModerator(role)
  }

  /** Whether the actor may edit or delete joke `jid`. */
  predicate MayChange(db: Db, actor: UserId, jid: JokeId)
    requires actor in db.users && jid in db.jokes
  {
    db.jokes[jid].owner == actor || IsModerator(db.users[actor].role)
  }

  function EditJoke(db: Db, actor: UserId, jid: JokeId, newBody: string): (r: Step)
    requires actor in db.users
    ensures jid !in db.jokes ==> r == Step(NotFound, db)
    ensures jid in db.jokes && !MayChange(db, actor, jid) ==> r == Step(Refused(NotOwner), db)
    ensures r.outcome == Done <==> jid in db.jokes && MayChange(db, actor, jid) && EditError(newBody) == None
    ensures r.outcome != Done ==> r.db == db
    ensures r.db.users == db.users && r.db.nextJokeId == db.nextJokeId
    ensures r.db.jokes.Keys == db.jokes.Keys
    ensures forall k :: k in db.jokes ==>
      r.db.jokes[k] == db.jokes[k].(body := r.db.jokes[k].body)
    ensures r.outcome == Done && !IsModerator(db.users[actor].role) ==>
      OnlyJokeChanged(db.jokes, r.db.jokes, jid) && r.db.jokes[jid].body == newBody
    ensures r.outcome == Done && IsModerator(db.users[actor].role) ==>
      forall k :: k in r.db.jokes ==> r.db.jokes[k].body == newBody
    ensures Valid(db) ==> Valid(r.db)
  {
    if jid !in db.jokes then Step(NotFound, db)
    else if !MayChange(db, actor, jid) then Step(Refused(NotOwner), db)
    else match EditError(newBody)
      case Some(e) => Step(Invalid(e), db)
      case None =>
        var role := db.users[actor].role;
        var edited := map k | k in db.jokes ::
          if EditMatches(k, db.jokes[k], jid, actor, role) then db.jokes[k].(body := newBody) else db.jokes[k];
        Step(Done, db.(jokes := edited))
  }

  /** The edit as its author evidently meant it: the UPDATE touches row `jid` only. */
  function EditJokeIntended(db: Db, actor: UserId, jid: JokeId, newBody: string): (r: Step)
    requires actor in db.users
    ensures jid !in db.jokes ==> r == Step(NotFound, db)
    ensures jid in db.jokes && !MayChange(db, actor, jid) ==> r == Step(Refused(NotOwner), db)
    ensures r.outcome == Done <==> jid in db.jokes && MayChange(db, actor, jid) && EditError(newBody) == None
    ensures r.outcome != Done ==> r.db == db
    ensures r.db.users == db.users && r.db.nextJokeId == db.nextJokeId
    ensures OnlyJokeChanged(db.jokes, r.db.jokes, jid)
    ensures r.outcome == Done ==> r.db.jokes[jid] == db.jokes[jid].(body := newBody)
    ensures Valid(db) ==> Valid(r.db)
  {
    if jid !in db.jokes then Step(NotFound, db)
    else if !MayChange(db, actor, jid) then Step(Refused(NotOwner), db)
    else match EditError(newBody)
      case Some(e) => Step(Invalid(e), db)
      case None => Step(Done, db.(jokes := db.jokes[jid := db.jokes[jid].(body := newBody)]))
  }

  /**
   * A moderator who edits one joke rewrites the body of another author's joke too,
   * where the intended edit leaves it alone.
   */
  lemma ModeratorEditRewritesOtherJokes()
    ensures
      var db := Db(map[1 := User("author", USER, 1), 2 := User("mod", MODERATOR, 0)],
                   map[10 := Joke("Why", "Because", 1, 0.0), 11 := Joke("How", "Somehow", 1, 0.0)], 12);
      && EditJoke(db, 2, 10, "Edited").db.jokes[11].body == "Edited"
      && EditJokeIntended(db, 2, 10, "Edited").db.jokes[11].body == "Somehow"
  {
  }

  /** A single word counts as one word, so it fits every word limit. */
  lemma OneWordFits(word: string)
    requires word != [] && Words.NoSpace(word)
    ensures Words.WordCount(word) == 1
    ensures EditError(word) == None
  {
    assert Words.SkipSpace(word, 0) == 0;
    var k := Words.SkipWord(word, 0);
    assert Words.SplitFrom(word, k) == [];
  }

  // ---------------------------------------------------------------- delete

  function Delete(db: Db, actor: UserId, jid: JokeId): (r: Step)
    requires actor in db.users
    ensures jid !in db.jokes ==> r == Step(NotFound, db)
    ensures jid in db.jokes && !MayChange(db, actor, jid) ==> r == Step(Refused(NotOwner), db)
    ensures r.outcome == Done <==> jid in db.jokes && MayChange(db, actor, jid)
    ensures r.outcome != Done ==> r.db == db
    ensures r.db.users == db.users && r.db.nextJokeId == db.nextJokeId
    ensures r.outcome == Done ==>
      && r.db.jokes.Keys == db.jokes.Keys - {jid}
      && forall k :: k in r.db.jokes ==> r.db.jokes[k] == db.jokes[k]
    ensures Valid(db) ==> Valid(r.db)
  {
    if jid !in db.jokes then Step(NotFound, db)
    else if !MayChange(db, actor, jid) then Step(Refused(NotOwner), db)
    else Step(Done, db.(jokes := db.jokes - {jid}))
  }

  // ---------------------------------------------------------------- a session

  /**
   * User 1 (balance 0) leaves "Why" / "Because" and is credited; user 2 (balance 2) views
   * it, then rates it 8 in a second request: the first rating is stored as given and user 2
   * ends where the rating request started. User 3 then rates it 4, which is merged.
   */
  lemma LeaveViewRateSession(merge: (real, real) -> real)
    ensures
      var db0 := Db(map[1 := User("a", USER, 0), 2 := User("b", USER, 2), 3 := User("c", USER, 1)], map[], 1);
      var step1 := Leave(db0, 1, "Why", "Because");
      var step2 := View(step1.db, 2, 1, None, merge);
      var step3 := View(step2.db, 2, 1, Some(8.0), merge);
      var step4 := View(step3.db, 3, 1, Some(4.0), merge);
      && step1 == Step(Done, Db(map[1 := User("a", USER, 1), 2 := User("b", USER, 2), 3 := User("c", USER, 1)],
                                map[1 := Joke("Why", "Because", 1, 0.0)], 2))
      && step2.db.users[2].balance == 1 && step2.db.users[1].balance == 1
      && step3.db.users[2].balance == 1 && step3.db.jokes[1].rating == 8.0
      && step4.db.jokes[1].rating == merge(8.0, 4.0) && step4.db.users[3].balance == 1
  {
    OneWordFits("Why");
    OneWordFits("Because");
    var db0 := Db(map[1 := User("a", USER, 0), 2 := User("b", USER, 2), 3 := User("c", USER, 1)], map[], 1);
    assert !HasTitle(db0.jokes, 1, "Why");
    var step1 := Leave(db0, 1, "Why", "Because");
    assert step1.db.users == map[1 := User("a", USER, 1), 2 := User("b", USER, 2), 3 := User("c", USER, 1)];
  }
}
