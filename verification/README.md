# GitHub webhook action feed — Dafny model

The repository is a small Flask service. GitHub posts webhook payloads to
`/webhook`, and the service turns each push, opened pull request or merged
pull request into one "action" document in a MongoDB collection. `/api/actions`
returns the 20 most recent documents for a web page. This project models the
decision logic of `app.py` as pure functions and proves properties about them:

- **Json** — the decoded body as Python sees it (`None`, bool, int, str, list,
  dict). It also holds the Python operations the endpoint applies: `in`, `.get`,
  `[...]`, truthiness and `str()`. Each operation returns the exception Python
  would raise (`KeyError`, `TypeError`, `AttributeError`) instead of a value.
- **Normalizer** — the body of `webhook()`, an ordered chain of guards.
  `Webhook(data)` has three outcomes:
  - `Ok(Insert(doc))`: one document to store (HTTP 201);
  - `Ok(Ignore)`: nothing stored (HTTP 200);
  - `Err(e)`: the exception the Python code raises (Flask answers 500).
- **Branches** — the target branch of a push, `ref.split('/')[-1]`.
- **ActionStore** — the collection as a sequence in insertion order.
  `Receive` is the whole `/webhook` request: classify, insert at most one
  document, answer. `GetActions` is `find().sort("timestamp", -1).limit(20)`
  with every `_id` turned into a string.
- **Timestamp** — `format_timestamp`: parses `YYYY-MM-DDTHH:MM:SS.fffZ` and
  renders `DD Month YYYY - hh:mm AM UTC`.
- **Text**, **Exceptions** — `str.split` and its inverse `join`, decimal digit
  strings, and the `Result` type that carries a Python exception.

Behaviour of the code worth knowing, which the model follows:

- A pull request missing a nested field (`user`, `head`, `base`) is not
  skipped: the code raises `KeyError` or `TypeError` and answers 500.
  `MissingUserFaults` and `PullRequestFaults` state the exceptions.
- A push whose `head_commit` is `null` also raises (`AttributeError` from
  `None.get`). GitHub sends such pushes when a branch is deleted.
  `PushFaults` states this and the other push exceptions.
- The code leaves the order of equal timestamps to MongoDB. The model's sort
  happens to put the later insertion first. No contract relies on that.

Every document field holds the JSON value the payload carried there. Python's
`None` is `JNull`. So a push without `after` stores `request_id` as `JNull`,
and a pull request's `id` is stored as the text of `str(id)`.

## Model

| member | source | states |
|---|---|---|
| Normalizer.KindNamesDistinct | app.py:34-64 | The `action` texts "PUSH", "PULL_REQUEST" and "MERGE" are distinct, so the stored text determines the kind of event. |
| Normalizer.Webhook | app.py:26-72 | Every stored document matches the guard that produced it. A PUSH comes only from a dict with both `pusher` and `ref`. A PULL_REQUEST comes only from a non-push dict with `pull_request` whose `action` is "opened". A MERGE comes only from one whose `action` is "closed" and whose `merged` is truthy. A push never has a source branch. |
| Normalizer.PushRecord | app.py:31-38 | The push document is built only from a dict with both push keys whose nested fields are complete. It is a PUSH with no source branch, and its target branch is a string without `/`. |
| Normalizer.PullRequestRecord | app.py:48-55 | The pull-request document is built exactly when `user.login`, `head.ref`, `base.ref` and the chosen time field are present. It carries the requested kind and the value of that time field. |
| Normalizer.PushTakesPrecedence | app.py:30-43 | A dict with both `pusher` and `ref` is never ignored and never becomes a pull-request document, even when it also has `pull_request`. |
| Normalizer.PushRecorded | app.py:30-40 | A push is stored exactly when `pusher` is a dict with `name`, `ref` is a string, and `head_commit` is absent or a dict. The document then has: request id `after` (None when absent); author `pusher.name`; kind PUSH; no source branch; target the last `/` piece of `ref`; timestamp `head_commit.timestamp` (None when either is absent). |
| Normalizer.PushFaults | app.py:31-37 | The exception an incomplete push raises, in evaluation order: TypeError for a non-dict pusher, KeyError("name") for a missing name, AttributeError for a non-string ref or a non-dict `head_commit` such as null. |
| Normalizer.PushToMain | app.py:36 | A complete push to `refs/heads/main` is stored as a PUSH to `main` with no source branch. |
| Normalizer.OpenedRecorded | app.py:43-57 | An opened pull request is stored exactly when `user.login`, `head.ref`, `base.ref` and `created_at` are all present. The document is a PULL_REQUEST from head to base, by the login, at `created_at`, with `str(id)` as request id. |
| Normalizer.ClosedRecorded | app.py:59-72 | For a closed pull request: a non-dict `pull_request` raises AttributeError; an unmerged one is ignored; a merged one is stored exactly when its fields are complete, as a MERGE stamped with `merged_at`, not `created_at`. |
| Normalizer.MissingUserFaults | app.py:47-67 | An opened (or closed and merged) pull request without `user` raises KeyError("user"). It is not ignored. |
| Normalizer.PullRequestFaults | app.py:47-67 | With `user` present, an incomplete opened (or closed and merged) pull request raises at the first field read that fails, in the order the document lists them. A `user`, `head` or `base` that is not a dict raises TypeError. A missing `login`, `head`, `ref`, `base`, `created_at` (opened) or `merged_at` (merged) raises KeyError naming that key. |
| Normalizer.IgnoredExactly | app.py:26-72 | The "ignored" answer is given exactly for payloads of `IgnoredShape`. Every other payload is either stored or raises. The ignored payloads are: dicts with neither push keys nor `pull_request`; pull requests whose action is neither "opened" nor "closed"; closed pull requests that are not merged; and lists or strings that contain neither both push keys nor `pull_request`. |
| Normalizer.ScalarPayloadFaults | app.py:30 | A body that is None, a boolean or a number makes the first `in` test raise TypeError. |
| Branches.BranchNameIsLastSegment | app.py:36 | `ref.split('/')[-1]` is the longest `/`-free suffix of the ref. It has no `/`, the ref ends with it, and it is the whole ref or comes right after a `/`. |
| Branches.LastSegmentUnique | app.py:36 | At most one string fits that description, so the description fully determines the branch name. |
| Branches.BranchNameWithoutSlash | app.py:36 | A ref without `/` is its own branch name. |
| Branches.BranchNameAfterLastSlash | app.py:36 | Everything up to the last `/` is dropped: `prefix/name` with a `/`-free name gives `name`. |
| Branches.BranchNameExamples | app.py:36 | `refs/heads/main` gives `main`; `refs/heads/feature/x` gives `x`. |
| Branches.BranchName | app.py:36 | `ref.split('/')[-1]`. The function has no contract of its own: `BranchNameIsLastSegment` and `LastSegmentUnique` determine its value completely. |
| Text.Split | app.py:36 | `str.split` on one character never returns an empty list: there is always at least one piece. |
| Text.SplitPiecesLackSeparator | app.py:36 | No piece of a split contains the separator. |
| Text.SplitWithoutSeparator | app.py:36 | A string without the separator splits into itself alone. |
| Text.SplitAfterPrefix | app.py:36 | A separator-free prefix followed by the separator becomes the first piece, and the rest is split on its own. |
| Text.SplitSingle | app.py:36 | The split has exactly one piece if and only if the separator does not occur. |
| Text.LastPieceTail | app.py:36 | While a separator remains, dropping the first character does not change the last piece. |
| Text.JoinSplit | app.py:36 | Joining the pieces of a split with the separator gives back the original string. |
| Text.SplitJoin | app.py:36 | Splitting a join of separator-free pieces gives back the pieces, so split and join are inverse. |
| Json.IntStringRoundTrip | app.py:49 | `str(n)` of an integer id loses nothing: reading the text back gives `n`. |
| Json.Contains | app.py:30 | `key in v`: a dict tests its keys, a list its members, a string its substrings. Whatever raises, raises TypeError. |
| Json.ContainsRaisesExactly | app.py:30 | `in` raises exactly on None, booleans and numbers. |
| Json.SubstringAt | app.py:30 | On a string, `in` finds a piece at any position. |
| Json.SubstringPosition | app.py:30 | On a string, what `in` finds occurs at some position, so `in` is exactly the substring test. |
| Json.GetOr | app.py:37 | `v.get(key, default)` on a dict gives the stored value, or the default when the key is absent. It never raises KeyError. Any other value raises AttributeError. |
| Json.Get | app.py:32 | `v.get(key)` on a dict without the key gives None. Only AttributeError can be raised. |
| Json.GetRaisesExactly | app.py:32-37 | `get` raises exactly on values that are not dicts. |
| Json.Index | app.py:33-36 | `v[key]` on a dict holding the key gives the stored value. A raised exception is KeyError(key) for a dict and TypeError for anything else. |
| Json.IndexRaisesExactly | app.py:33-36 | `v[key]` raises exactly when `v` is not a dict or lacks the key. |
| Json.DictAccessAgrees | app.py:30-67 | On a dict, `key in d` holds exactly when `d[key]` succeeds. `d.get(key)` then agrees with `d[key]`. Otherwise `d[key]` raises KeyError and `d.get(key)` gives None. |
| Json.Truthy | app.py:60 | Python's truth test. It has no contract of its own: `FalsyValues` states it. |
| Json.FalsyValues | app.py:60 | The false values are exactly None, False, 0, the empty string, the empty list and the empty dict. |
| Json.PyStr | app.py:49 | `str(v)` keeps a string as it is and writes an integer in decimal. |
| Json.ScalarStrInjective | app.py:49 | `str()` of None, booleans and integers loses nothing: equal texts come from equal values. |
| ActionStore.Receive | app.py:26-72 | A request grows the collection by exactly one document if and only if it answers 201. That happens exactly when the payload yields a document and the insert succeeds. The new document is that document under the new id. Nothing stored before changes. The answer is 200 exactly when the payload is ignored, and then nothing is stored. It is 500 exactly when the payload raises or the insert fails. |
| ActionStore.InsertDescending | app.py:78 | Inserting into a timestamp-descending sequence keeps it descending and adds exactly the one element. |
| ActionStore.SortDescending | app.py:78 | `sort("timestamp", -1)` yields a permutation of its input in non-increasing timestamp order. |
| ActionStore.Latest | app.py:78 | `sort(...).limit(n)` returns `min(n, size)` documents, or all of them when `n` is 0, which pymongo reads as no limit. They come in descending order, all from the collection. No left-out document is newer than a returned one. When the collection fits, or the limit is 0, everything is returned. |
| ActionStore.GetActions | app.py:76-81 | `/api/actions` returns `min(20, size)` documents, newest first, drawn from the collection. Nothing newer than a returned document is left out. With at most 20 stored, the answer holds exactly the stored documents. |
| ActionStore.ActionsAreStored | app.py:78-80 | Each returned document is a stored document with its `_id` converted to a string. |
| ActionStore.ExposeAll | app.py:79-80 | The collection with every `_id` replaced by its string form: same length, position by position the same document. |
| ActionStore.HeadIsGreatest | app.py:78 | The first returned document has a timestamp at least that of every stored document. |
| ActionStore.NewestComesFirst | app.py:39-40 | A document stored with a timestamp above every earlier one heads the next `/api/actions` answer. |
| ActionStore.StoredIsListed | app.py:39-40 | While fewer than 20 documents are stored, a document `/webhook` has just stored appears in the next `/api/actions` answer with all six fields unchanged. |
| ActionStore.PrefixIsTop | app.py:78 | A prefix of a descending sequence is a sub-multiset, and nothing outside it is above anything in it. |
| Timestamp.ParseIso | app.py:21 | strptime succeeds only on text in the layout that names a real instant (years 1 to 9999, real calendar days, no leap second). |
| Timestamp.IsoRoundTrip | app.py:21 | Parsing the canonical millisecond text of a valid instant gives that instant back. |
| Timestamp.CanonicalTextRoundTrip | app.py:20-22 | For canonical text (24 characters, upper-case `T` and `Z`), `format_timestamp` succeeds exactly when the parse does. The parsed instant then has whole milliseconds, its canonical rendering is the very text parsed, and the answer is its display. Together with `IsoRoundTrip` this makes parsing and rendering inverse on canonical text. |
| Timestamp.FieldsRendered | app.py:21 | Text in the layout with a three-digit fraction and upper-case `T` and `Z` is the zero-padded rendering of the fields read from it. |
| Text.PadValue | app.py:21-22 | A digit string is the zero-padded rendering of its own value at its own width, and that value fits in the width. |
| Timestamp.ClockHours | app.py:22 | `%I %p`: hour 0 is 12 AM, hours 1–11 keep their number with AM, hour 12 is 12 PM, hours 13–23 lose twelve and take PM. The 12-hour value is always 1 to 12. |
| Timestamp.ClockRoundTrip | app.py:22 | The 12-hour reading and AM/PM together determine the hour of the day. |
| Timestamp.DisplayLayout | app.py:22 | The display fills in the strftime pattern: zero-padded day, full English month name, four-digit year, ` - `, zero-padded 12-hour clock, AM/PM, ` UTC`. |
| Timestamp.MonthNumber | app.py:22 | Looking up a month name gives 0 or a month whose `%B` name it is. |
| Timestamp.MonthNumberOfName | app.py:22 | Every month's `%B` name leads back to that month, so the twelve names are distinct. |
| Timestamp.DisplayReadBack | app.py:22 | Reading a display back gives the year, month, day, hour and minute of the instant it was made from. |
| Timestamp.FormatShowsInstant | app.py:20-22 | `format_timestamp` succeeds on the canonical text of a valid instant, and its answer reads back as that instant's minute. |
| Timestamp.FormatTimestamp | app.py:20-22 | `format_timestamp` succeeds exactly when the parse does, and otherwise raises ValueError. Its answer reads back as the parsed instant's year, month, day, hour and minute. |
| Timestamp.Display | app.py:22 | The strftime call. It has no contract of its own: `DisplayLayout` gives its text, and `DisplayReadBack` shows that the text determines the minute. |

## Left out

- Flask itself: routing, `request.json`, `jsonify` bodies, templates and
  static files. Only the outcome and the status code (201, 200, 500) are
  modelled. What a body that is not JSON does depends on the Flask version.
  Since Flask 2.1 `request.json` rejects it before the modelled code runs.
  Earlier versions give None, and `ScalarPayloadFaults` covers that case.
- MongoDB: the client, connection and collection handle are not modelled.
  The collection is a sequence. A successful insert's new `_id` and an
  insert failure are parameters of `Receive`.
- ActionStore.Receive: `insert_one` is modelled as all or nothing, so a
  raising insert stores nothing. pymongo can raise after the server applied
  the write (a write-concern error, or a network error after sending). Flask
  then answers 500 with the document stored. The contract "one more document
  exactly when 201" does not cover that case.
- ActionStore.TimestampOrder: the sort key's order is any total preorder.
  MongoDB's order across BSON types is not modelled: where None, lists and
  dicts fall, and the order among equal timestamps, are left open.
- `load_dotenv` and reading `MONGO_URI`: environment and process start-up.
- Concurrent requests: the source has no concurrency logic of its own. Each
  request is modelled as one step on the collection.
- Json.PyStr: `str()` of a list or dict `id` is rendered as the placeholder
  `[...]` or `{...}`, not Python's repr. Python's repr follows dict insertion
  order, which an unordered `map` does not keep. `str()` of None, booleans,
  integers and strings is exact.
- JSON numbers with a fraction or exponent (Python floats) are not modelled.
  Numbers are integers.
- Timestamp.ParseIso: only fixed-width fields made of ASCII digits are
  accepted. Python's strptime also accepts unpadded month, day and time
  fields and other Unicode decimal digits. Locale settings are not
  modelled (the C locale is assumed).
- Timestamp.DisplayLayout: years below 1000 are rendered with four digits.
  Whether `%Y` pads them depends on the Python version and platform: older
  CPython releases on glibc do not, recent ones do.
- Webhook signature checking: the source has none.
