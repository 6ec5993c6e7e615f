# Joke-sharing site: balance, joke and role bookkeeping

This project models the request handlers of a small joke-sharing web application
(`flaskr/jokes.py`, `flaskr/moderation.py`). Users leave jokes and spend a *joke balance*
to view other users' jokes. They earn balance by leaving and rating jokes. Moderators
edit users, toggle moderator roles and flip the DEBUG setting.

The two tables are maps from row id to record:
- `user`: id ↦ (nickname, role, joke_balance)
- `joke`: id ↦ (title, body, owner, rating)

Each state-changing handler (`leave`, `view`, `edit_joke`, `delete`, `edit_user`, `manage_moderators`, `toggle_debug`) is modelled twice:
- a function in `Jokes` or `Moderation` (files `jokes.dfy`, `moderation.dfy`) maps the tables before the request to an `Outcome` (done, refused, not found, invalid form, or crashed with a server error) and the tables after. The DEBUG flag is not part of the tables: `Moderation.ToggleDebug` maps the actor's role and the flag to an `Outcome` and the new flag;
- a method of the class `App.Site` (file `app.dfy`) does the handler's read-check-write steps in place on the fields `users`, `jokes`, `nextJokeId` and `debug`, and its postcondition equates its answer and new state with that function.

The read-only pages `my_jokes`, `list` and `users` are functions only.

The properties are stated on the functions, as their postconditions and as lemmas.
`Store.Valid` is the invariant every handler preserves:
- balances are non-negative;
- every joke has an existing owner and an id below the next id;
- no author has two jokes with the same title.

Supporting modules:
- `Words` (`words.dfy`) models the word count `len(s.split())`. A word is a maximal run of characters that are not Python whitespace. The lemma `WordCountIsRunStarts` proves the count equals an independent definition: the number of positions that start such a run.
- `Digits` (`digits.dfy`) models the balance field check `isdigit()` followed by `int()`.

Behaviour that follows the code rather than its apparent intent:
- The view cost applies to every non-owner, moderators included. Only the zero-balance gate is waived for moderators.
- A title or body made only of whitespace passes validation (`Jokes.BlankFieldsAccepted`). Only the empty string is rejected.
- A moderator's edit rewrites the body of every joke (see Findings).
- `edit_user` on a missing target still answers "updated". Its UPDATE matches no row, so nothing changes.
- `edit_user` with a digit string of more than 4300 characters (leading zeros included) makes `int()` raise inside the form check itself. The request ends in a server error and nothing is written, even when the value is small.
- `edit_user` with a digit string of at most 4300 characters whose value is above 2^63 - 1 passes the form check, but the value cannot be bound as a 64-bit SQLite INTEGER. The UPDATE raises, the request ends in a server error, and nothing is written (`Moderation.EditUserStoresDecimalBalance`).
- The out-of-balance redirect after a rating (`flaskr/jokes.py:130-132`) can never be taken. `App.Site.View` proves it with an `assert false` in that branch.

## Model

| member | source | states |
|---|---|---|
| Words.SplitFrom | flaskr/jokes.py:32-34 | every word that `str.split()` yields is non-empty and free of whitespace |
| Words.SplitFromCountsRunStarts | flaskr/jokes.py:32-34 | from any word boundary, the number of words split off equals the number of run starts that follow |
| Words.WordCountIsRunStarts | flaskr/jokes.py:32-34 | the word count of the title/body checks equals the number of maximal non-whitespace runs |
| Words.WordCountZeroIffBlank | flaskr/jokes.py:162-165 | a string has no words exactly when it is empty or all whitespace |
| Digits.ShowNat | flaskr/moderation.py:44 | decimal notation is a non-empty digit string with no leading zero |
| Digits.ParseShowNat | flaskr/moderation.py:46 | `int()` of a number's decimal notation gives back the number |
| Digits.ShowNatLength | flaskr/moderation.py:44 | a number below 10^k is written with at most k digits |
| Digits.ShowNatInt64 | flaskr/moderation.py:44-46 | every value of a 64-bit INTEGER is written with at most 19 digits, well within what `int()` reads |
| Digits.ParseBalance | flaskr/moderation.py:41-44 | the balance field is rejected exactly when missing, empty or not all digits; a digit string of more than 4300 characters makes `int()` raise; anything else is read as a number |
| Digits.ParseBalanceShowNat | flaskr/moderation.py:44-46 | a natural number written in decimal is read back unchanged when it has at most 4300 digits, and makes `int()` raise otherwise |
| Jokes.FieldError | flaskr/jokes.py:30-37 | the form passes exactly when the title is non-empty with at most 10 words and the body is non-empty with at most 100 words; an empty title reports the missing title |
| Jokes.BlankFieldsAccepted | flaskr/jokes.py:30-37 | a non-empty title and body made only of whitespace pass the checks |
| Jokes.Leave | flaskr/jokes.py:14-48 | a moderator is refused with no change; a title the author already used is refused with no change, whatever the other checks say; success happens exactly when neither applies and the fields pass; success inserts exactly the joke (title, body, author, rating 0) under a fresh id and raises only the author's balance, by exactly 1; every failure changes nothing; the invariant is preserved |
| Jokes.List | flaskr/jokes.py:68-84 | refuses exactly a non-moderator with balance 0, listing nothing; otherwise lists exactly the other authors' jokes |
| Jokes.MyJokesAndListPartition | flaskr/jokes.py:62-81 | for a user past the gate, own jokes and listed jokes are disjoint and together are all jokes |
| Jokes.ViewCharge | flaskr/jokes.py:106-113 | the balance after a view is B-1 when B ≥ 1 and 0 otherwise, so never negative |
| Jokes.View | flaskr/jokes.py:86-136 | a non-moderator with balance 0 is refused with no change; a missing joke gives not-found with no change; the owner's view changes nothing; a non-owner's view charges max(B-1, 0); a non-owner's rating POST also stores the submitted rating (or the merge when the current rating is non-zero) in that joke only and adds 1; no other user or joke changes; the invariant is preserved |
| Jokes.FirstRatingStoredAsSubmitted | flaskr/jokes.py:115-122 | a rating of a joke whose rating is 0 is stored exactly as submitted |
| Jokes.RatingKeepsNonModeratorBalance | flaskr/jokes.py:106-129 | after a rating request, a non-moderator's balance equals its value before the request |
| Jokes.EditError | flaskr/jokes.py:162-165 | the new body passes exactly when it is non-empty and has at most 100 words |
| Jokes.EditJoke | flaskr/jokes.py:138-175 | a missing joke gives not-found; a non-owner non-moderator is refused; every failure changes nothing; no title, owner, rating or user ever changes; an owner's edit changes only that joke's body; a moderator's edit sets every joke's body |
| Jokes.EditJokeIntended | flaskr/jokes.py:168 | the same outcomes as the edit, but at most the edited joke changes, and only its body |
| Jokes.ModeratorEditRewritesOtherJokes | flaskr/jokes.py:168 | a moderator's edit of one joke overwrites another author's joke; the intended edit does not |
| Jokes.OneWordFits | flaskr/jokes.py:162-165 | a single word has word count 1 and passes the edit checks |
| Jokes.Delete | flaskr/jokes.py:181-209 | a missing joke gives not-found; a non-owner non-moderator is refused with no change; success happens exactly for owner or moderator and removes exactly that joke; no balance changes |
| Jokes.LeaveViewRateSession | flaskr/jokes.py:14-136 | leaving credits the author; a view charges the viewer only; a first rating is stored as given, and a later one is merged |
| Moderation.ModeratorRequired | flaskr/moderation.py:13-22 | every role other than "Moderator" is refused |
| Moderation.Users | flaskr/moderation.py:24-31 | a moderator sees all users; anyone else is refused and sees none |
| Moderation.RoleField | flaskr/moderation.py:42-46 | a missing role field is stored as NULL, a present one as given |
| Moderation.EditUser | flaskr/moderation.py:33-55 | a non-moderator is refused; a missing, empty or non-digit balance is rejected with no change; a digit string longer than `int()` reads, or whose value is above the 64-bit INTEGER range, fails with a server error and no change; otherwise the target, if it exists, gets the parsed balance (between 0 and 2^63 - 1) and the submitted role; no other user or joke changes; the invariant is preserved |
| Moderation.EditUserStoresDecimalBalance | flaskr/moderation.py:44-47 | a balance written in decimal up to 2^63 - 1 is stored as that number with the submitted role and nothing else changes; a larger one fails with a server error and writes nothing |
| Moderation.EditUserCanRemoveLastModerator | flaskr/moderation.py:44-47 | the only moderator can demote themself through the direct edit, leaving no moderator |
| Moderation.ToggledRole | flaskr/moderation.py:84 | the new role is a moderator exactly when the old one was not, and is always User or Moderator |
| Moderation.ToggledRoleTwice | flaskr/moderation.py:84 | toggling User or Moderator twice gives back the role |
| Moderation.ManageModerators | flaskr/moderation.py:65-90 | a non-moderator is refused; a moderator targeting themself while there is at most one moderator is refused; a missing target gives not-found; success happens exactly when none of these apply, so a moderator may step down while another moderator remains and any existing target with any role, NULL included, is toggled; every failure changes nothing; success changes only the target's role, to its toggle |
| Moderation.ManageModeratorsKeepsAModerator | flaskr/moderation.py:65-85 | when the actor is a moderator, at least one moderator remains afterwards |
| Moderation.ManageModeratorsTwiceRestores | flaskr/moderation.py:83-86 | toggling another user with role User or Moderator twice restores the tables |
| Moderation.ToggleDebug | flaskr/moderation.py:92-99 | a moderator flips DEBUG; anyone else is refused and DEBUG stays |
| Moderation.ToggleDebugTwice | flaskr/moderation.py:95 | two toggles restore DEBUG |
| App.Site.constructor | flaskr/db.py:62-84 | a freshly initialised site: no jokes, one user (id 1) whose role is "Moderator" and balance 0, and DEBUG on as `flaskr/__init__.py` sets it |
| App.Site.Leave | flaskr/jokes.py:14-48 | the in-place leave handler answers and updates exactly as `Jokes.Leave`, preserving the invariant |
| App.Site.View | flaskr/jokes.py:86-136 | the in-place view handler, with the local balance decremented and incremented step by step, answers and updates exactly as `Jokes.View` |
| App.Site.EditJoke | flaskr/jokes.py:138-175 | the in-place edit, with the UPDATE's row filter as written, answers and updates exactly as `Jokes.EditJoke` |
| App.Site.Delete | flaskr/jokes.py:181-209 | the in-place delete answers and updates exactly as `Jokes.Delete` |
| App.Site.EditUser | flaskr/moderation.py:33-55 | the in-place user edit, including the server errors for a digit string too long for `int()` and for a balance beyond 64 bits, answers and updates exactly as `Moderation.EditUser` |
| App.Site.ManageModerators | flaskr/moderation.py:65-90 | the in-place toggle answers and updates exactly as `Moderation.ManageModerators`, and a moderator actor leaves at least one moderator |
| App.Site.ToggleDebug | flaskr/moderation.py:92-99 | flips the DEBUG field exactly as `Moderation.ToggleDebug` |

## Findings

| source | as written | input that shows it | evidently intended | confidence | as-written member | corrected member |
|---|---|---|---|---|---|---|
| flaskr/jokes.py:168 | `WHERE id = ? AND user_id = ? OR ? = "Moderator"` parses as `(id AND user_id) OR role = 'Moderator'`; for a moderator it matches every row | a moderator (user 2) edits joke 10 of user 1 while user 1 also owns joke 11: joke 11's body is overwritten too | only joke `id` is updated, by its owner or a moderator | high; not executed | Jokes.ModeratorEditRewritesOtherJokes | Jokes.EditJokeIntended |

`App.Site.EditJoke` models the handler, so it keeps the as-written filter.

## Left out

- Routing, templates, flash messages, redirects and logging: each handler's result is an `Outcome` value.
- GET requests of `leave`, `edit_joke` and `edit_user`: they only render a form and change nothing. The `user not found` page of the `edit_user` GET is part of this.
- Session and cookie handling, registration, login and password hashing (`flaskr/auth.py`). The acting user is a parameter whose row is required to exist. The crash paths where no user is logged in are not modelled.
- Connection lifecycle, schema loading and the command-line commands (`flaskr/db.py`), and the application factory and request hooks (`flaskr/__init__.py`). The tables are the `Db` value.
- The schema is not part of this model. New joke ids come from a counter, `nextJokeId`. The first moderator's balance is taken to be 0, the balance a new user starts with.
- Configuration: DEBUG starts on (`flaskr/__init__.py:54`). An instance `config.py` or a test configuration can override it (`flaskr/__init__.py:57-62`); the model does not cover that.
- Registration is not modelled, so a constructed `App.Site` has only its first moderator as a user. The functions accept any `Db` value.
- Jokes.Leave: balances are unbounded integers. When a balance is already 2^63 - 1, SQLite computes `joke_balance + 1` as a REAL; the model stores 2^63 instead.
- Jokes.View: the same REAL conversion of `joke_balance + 1` after a rating at balance 2^63 - 1 is not modelled.
- The e-mail, password and creation-timestamp columns.
- Jokes.View: the merge `round((C + R) / 2, 1)` for a non-zero current rating is the caller-supplied function `merge`. Float rounding is not modelled, and ratings are `real` numbers.
- Parsing the rating field with `float()`, and its failure on non-numeric input.
- The 400 error for a missing `title`, `body` or `rating` form field. These fields are plain strings in the model.
- Digits.ParseBalance: only ASCII digits are digits. Python's `isdigit()` also accepts other Unicode digits, and `int()` then either reads them or raises an error (superscripts). Those inputs are not modelled.
- Digits.ParseBalance: the limit of 4300 digits is CPython's default (Python 3.11 and later, and the security releases 3.7.14 to 3.10.7 and later). Older interpreters have no limit, and the limit can be changed with `sys.set_int_max_str_digits` or `PYTHONINTMAXSTRDIGITS`. Those settings are not modelled.
- Races between concurrent requests: the model is sequential, one request at a time.
