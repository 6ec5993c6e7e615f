/**
 * The data the request handlers read and write: the `user` and `joke` tables,
 * seen as maps from row id to record, and the outcome of one request.
 */
module Store {
  type UserId = int
  type JokeId = int

  /** The `role` column: a string, or NULL when a moderator's form omitted it. */
  datatype Role = Named(name: string) | Null

  const MODERATOR: Role := Named("Moderator")
  const USER: Role := Named("User")

  predicate IsModerator(r: Role) {
    r == MODERATOR
  }

  /** A `user` row; e-mail and password hash are left out. */
  datatype User = User(nickname: string, role: Role, balance: int)

  /** A `joke` row; the creation timestamp is left out. */
  datatype Joke = Joke(title: string, body: string, owner: UserId, rating: real)

  /** Both tables, and the id the next inserted joke receives. */
  datatype Db = Db(users: map<UserId, User>, jokes: map<JokeId, Joke>, nextJokeId: nat)

  /** Authorisation failures: flash an error and redirect, nothing written. */
  datatype Refusal = ModeratorCannotLeave | OutOfBalance | NotOwner | NotModerator | LastModerator

  /** Form validation failures: flash an error, nothing written. */
  datatype FormError = MissingTitle | TitleTooLong | BodyTooLong | MissingBody | DuplicateTitle | BadBalance

  /**
   * The answer to one request. `Crashed` is an exception the handler does not catch
   * (a server error): the transaction is not committed, so nothing is written.
   */
  datatype Outcome = Done | Refused(why: Refusal) | NotFound | Invalid(error: FormError) | Crashed

  /** The largest value SQLite stores in an INTEGER column (a signed 64-bit integer). */
  const MAX_INTEGER: int := 0x7fff_ffff_ffff_ffff

  /** What one request answers and the tables it leaves behind. */
  datatype Step = Step(outcome: Outcome, db: Db)

  /** The users whose role is "Moderator" (the `COUNT(*) ... WHERE role = "Moderator"` set). */
  function Moderators(users: map<UserId, User>): (m: set<UserId>)
    ensures forall u :: u in m <==> u in users && IsModerator(users[u].role)
  {
    set u | u in users && IsModerator(users[u].role)
  }

  /** No author has two jokes with the same title (the (title, user_id) uniqueness). */
  ghost predicate TitlesUnique(jokes: map<JokeId, Joke>) {
    forall a, b :: a in jokes && b in jokes && a != b && jokes[a].owner == jokes[b].owner ==>
      jokes[a].title != jokes[b].title
  }

  /** What holds of the tables between requests. */
  ghost predicate Valid(db: Db) {
    && (forall u :: u in db.users ==> db.users[u].balance >= 0)
    && (forall j :: j in db.jokes ==> j < db.nextJokeId && db.jokes[j].owner in db.users)
    && TitlesUnique(db.jokes)
  }

  /** `after` differs from `before` at most in the balance of `uid`. */
  ghost predicate OnlyBalanceOf(before: map<UserId, User>, after: map<UserId, User>, uid: UserId) {
    && before.Keys == after.Keys
    && uid in before
    && after[uid].nickname == before[uid].nickname
    && after[uid].role == before[uid].role
    && forall u :: u in before && u != uid ==> after[u] == before[u]
  }

  /** `after` differs from `before` at most in the row `id`, which it keeps. */
  ghost predicate OnlyJokeChanged(before: map<JokeId, Joke>, after: map<JokeId, Joke>, id: JokeId) {
    && before.Keys == after.Keys
    && forall k :: k in before && k != id ==> after[k] == before[k]
  }

  /** `after` is `before` with the new row `j` under the fresh id `id`. */
  ghost predicate InsertedAt(before: map<JokeId, Joke>, after: map<JokeId, Joke>, id: JokeId, j: Joke) {
    && id !in before
    && after.Keys == before.Keys + {id}
    && after[id] == j
    && forall k :: k in before ==> after[k] == before[k]
  }

  function WithBalance(users: map<UserId, User>, uid: UserId, balance: int): (r: map<UserId, User>)
    requires uid in users
    ensures OnlyBalanceOf(users, r, uid) && r[uid].balance == balance
  {
    users[uid := users[uid].(balance := balance)]
  }

  /** A second balance write to the same user replaces the first. */
  lemma WithBalanceTwice(users: map<UserId, User>, uid: UserId, first: int, second: int)
    requires uid in users
    ensures WithBalance(WithBalance(users, uid, first), uid, second) == WithBalance(users, uid, second)
  {
  }
}
