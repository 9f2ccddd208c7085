# Profile feed of the user-profile screen

This project models the state behind the user-profile screen of an Instagram-style
iOS app (`UserProfileController`). The screen shows a user's posts as a grid or a
list. It loads them two ways. A live `childAdded` subscription inserts each record
at the front. A paginated query fetches older posts four at a time whenever the
last cell is about to render.

The model keeps four of the controller's fields:

- `user`: the profile owner, once fetched.
- `posts`: the posts loaded so far, meant to be newest first (see below).
- `isFinishedPaging`: set once a page comes back short.
- `isGridView`: chooses photo cells or full post cells.

Two modules:

- `ProfileFeed` (`profile_feed.dfy`) gives the state as a value (`FeedState`). Each
  callback is a function on it: `PageMerge` for a page answer, `LiveInsert` for a
  live add, `NextPageQuery` for the query a page fetch issues, `WantsPage` for the
  pagination trigger, and `Step`/`Run` for any sequence of callbacks. The module
  also holds the lemmas about these functions.
- `UserProfile` (`user_profile_controller.dfy`) holds the class
  `UserProfileController`. It has the same fields and one method per callback. Each
  method changes only the fields its `modifies` clause names. Its postcondition
  gives the new state as the matching `ProfileFeed` function of the old state.
  The page callback's `forEach` is a loop (`AppendPosts`) proved against that
  function.

`paginatePosts` is split at its asynchronous boundary. `PaginatePosts` is the
synchronous half: the `uid` guard and the query. It changes nothing.
`OnPageLoaded` is the completion callback. It reads `user` again when the answer
arrives, so the model keeps the source's second `user` guard. Each callback is one
atomic step.

Three points about what the code does and does not do:

- The code drops the first element of the reversed batch whenever `posts` was
  non-empty, whatever that element is (UserProfileController.swift:59-61). It is the
  re-returned bound record only when that record is still in the answer.
  `PageAppends` states what the code does.
- Nothing in the code keeps `posts` newest first in general. `PageKeepsNewestFirst`
  proves it for one page, under stated assumptions about the answer. Nothing is
  claimed once live adds and pages interleave.
- Posts inserted by the live subscription get no id: `fetchOrderedPosts` never
  assigns `post.id`. The model gives them `id == None`. This assumes the `Post`
  initialiser leaves `id` unset; that initialiser is not part of this model.

## Model

| member | source | states |
|---|---|---|
| `ProfileFeed.AsSnapshots` | Instagram_Clone_SW5/User/UserProfileController.swift:51 | the cast of the answer's children succeeds exactly when every child is a snapshot; the snapshots then keep the children's order and count |
| `ProfileFeed.Initial` | Instagram_Clone_SW5/User/UserProfileController.swift:14-22 | a fresh screen has no user and no posts, paging open and grid view on, so no page query can be issued yet |
| `ProfileFeed.Trimmed` | Instagram_Clone_SW5/User/UserProfileController.swift:59-61 | with earlier posts and a non-empty batch, the batch minus its first element; otherwise the batch unchanged |
| `ProfileFeed.PageMerge` | Instagram_Clone_SW5/User/UserProfileController.swift:51-74 | the page callback as a state change: a failed cast changes nothing; user and view mode never change; a set exhaustion flag stays set |
| `ProfileFeed.Dictionaries` | Instagram_Clone_SW5/User/UserProfileController.swift:67 | the snapshots that pass the dictionary guard: every result has a dictionary value and is from the batch, every dictionary snapshot of the batch is kept, and a batch of dictionaries is kept whole |
| `ProfileFeed.DictionariesConcat` | Instagram_Clone_SW5/User/UserProfileController.swift:65-67 | the dictionary filter distributes over concatenation, so dictionary snapshots keep their relative order |
| `ProfileFeed.LiveInsert` | Instagram_Clone_SW5/User/UserProfileController.swift:86-90 | the live-add callback as a state change: only posts changes, growing by at most one, with the old posts as its suffix |
| `ProfileFeed.WantsPage` | Instagram_Clone_SW5/User/UserProfileController.swift:150 | the pagination trigger: it fires exactly when the rendered index is the last one and paging is not finished; so only for the last index, and never once paging is finished |
| `ProfileFeed.CellKindOf` | Instagram_Clone_SW5/User/UserProfileController.swift:155-162 | the cell is a photo cell exactly in grid view, a full post cell otherwise |
| `ProfileFeed.PagePosts` | Instagram_Clone_SW5/User/UserProfileController.swift:65-72 | the `forEach` yields at most one post per snapshot of the batch |
| `ProfileFeed.PagePostsAreDictionaries` | Instagram_Clone_SW5/User/UserProfileController.swift:65-72 | the posts appended for a batch are exactly its dictionary-valued snapshots, in order; each post's id is the snapshot's key, its date the record's date and its user the screen's user; other snapshots are skipped |
| `ProfileFeed.PagePostsReverse` | Instagram_Clone_SW5/User/UserProfileController.swift:53-72 | building posts from the reversed batch gives the reverse of the posts of the batch |
| `ProfileFeed.PageAppends` | Instagram_Clone_SW5/User/UserProfileController.swift:51-74 | with a known user, a page leaves the old posts in place and appends the posts of the answer newest first; when posts was non-empty and the answer non-empty, the answer's last snapshot is left out, whatever it is |
| `ProfileFeed.PageFlag` | Instagram_Clone_SW5/User/UserProfileController.swift:55-57 | after a page the exhaustion flag is set if and only if it was set before or the untrimmed answer had fewer than 4 children; this holds whether or not posts was empty and whether or not the user is known |
| `ProfileFeed.PagePrefix` | Instagram_Clone_SW5/User/UserProfileController.swift:59-72 | a page keeps the old posts as a prefix, never changes the user or the view mode, and appends nothing when the user guard fails |
| `ProfileFeed.PageGrowth` | Instagram_Clone_SW5/User/UserProfileController.swift:49-61 | a page appends at most as many posts as the answer has children; with the 4-child limit, at most 4, and at most 3 when posts was non-empty |
| `ProfileFeed.PageKeepsNewestFirst` | Instagram_Clone_SW5/User/UserProfileController.swift:42-72 | if posts is newest first, and the answer is ascending by creation date and lies at or before the last post's date, then posts stays newest first after the page |
| `ProfileFeed.LiveInsertShifts` | Instagram_Clone_SW5/User/UserProfileController.swift:86-90 | a live add changes posts exactly when the value is a dictionary and the user is known; then it inserts the new post (without id) at index 0, grows the length by one and shifts every old post up one index unchanged; the flags and user never change |
| `ProfileFeed.NextPageQuery` | Instagram_Clone_SW5/User/UserProfileController.swift:38-49 | there is a query exactly when the user is known; it is for the user's uid with limit 4; it is bounded exactly when posts is non-empty, and the bound is the last post's creation date |
| `ProfileFeed.FinishedIsTerminal` | Instagram_Clone_SW5/User/UserProfileController.swift:150-153 | once the exhaustion flag is set, every later sequence of callbacks keeps it set, and no rendered index asks for a page again |
| `ProfileFeed.PagesOnlyExtend` | Instagram_Clone_SW5/User/UserProfileController.swift:65-72 | over any sequence of callbacks without live adds, the earlier posts stay a prefix of the later ones |
| `ProfileFeed.TwoPages` | Instagram_Clone_SW5/User/UserProfileController.swift:49-74 | worked example: a first full page on an empty screen lands newest first with paging open; a second, short page re-returns the bound record, which is dropped, appends the older post and ends paging |
| `UserProfile.UserProfileController.constructor` | Instagram_Clone_SW5/User/UserProfileController.swift:14-22 | a new screen has no user and no posts, grid view on and paging not finished |
| `UserProfile.UserProfileController.OnUserFetched` | Instagram_Clone_SW5/User/UserProfileController.swift:133-134 | the fetched user is stored and nothing else changes |
| `UserProfile.UserProfileController.PaginatePosts` | Instagram_Clone_SW5/User/UserProfileController.swift:35-49 | the query issued is the one `NextPageQuery` gives for the current state: none without a user id, otherwise the user's uid with limit 4, bounded at the last post's creation date exactly when posts is non-empty; no field changes |
| `UserProfile.UserProfileController.OnPageLoaded` | Instagram_Clone_SW5/User/UserProfileController.swift:49-74 | the new state is `PageMerge` of the old state and the answer; the old posts stay a prefix and a set exhaustion flag stays set |
| `UserProfile.UserProfileController.AppendPosts` | Instagram_Clone_SW5/User/UserProfileController.swift:65-74 | the loop appends exactly the posts of the batch's dictionary snapshots, in batch order, after the old posts |
| `UserProfile.UserProfileController.OnChildAdded` | Instagram_Clone_SW5/User/UserProfileController.swift:86-91 | a dictionary record becomes a post inserted at index 0 when the user is known; otherwise posts is unchanged; only posts can change |
| `UserProfile.UserProfileController.NumberOfItems` | Instagram_Clone_SW5/User/UserProfileController.swift:144-146 | the item count is the number of posts |
| `UserProfile.UserProfileController.CellForItem` | Instagram_Clone_SW5/User/UserProfileController.swift:148-163 | a page fetch is started exactly when `WantsPage` holds for the index, and it issues the query `NextPageQuery` describes; the cell kind is `CellKindOf` the state, and the cell shows the post at that index; nothing changes |
| `UserProfile.UserProfileController.DidChangeToGridView` | Instagram_Clone_SW5/User/UserProfileController.swift:189-192 | grid view is on and nothing else changes |
| `UserProfile.UserProfileController.DidChangeToListView` | Instagram_Clone_SW5/User/UserProfileController.swift:194-197 | grid view is off and nothing else changes |

## Left out

- Firebase Realtime Database calls (`queryOrdered`, `queryEnding`, `queryLimited`, `observe`, `observeSingleEvent`) are a foreign SDK. The query is modelled as the value `PageQuery`. The answer is a parameter: a sequence of children, each a snapshot with a key and an optional dictionary value.
- The query's error callbacks only log. They change no state, so they have no member.
- Firebase Auth and the log-out flow (`handleLogOut`, `setupLogOutButton`, `signOut`, presenting `LoginController`) are UI plus a foreign call.
- `fetchUser` and `Database.fetchUserWithUID` are network plumbing through a helper that is not part of this model. So is the `userId` field, which `fetchUser` reads to choose whose profile loads. Only the callback's store of the user is modelled (`OnUserFetched`). Its other effects are left out: the navigation title and opening the live subscription.
- `fetchOrderedPosts` opens the subscription only when `uid` is present. Opening it is I/O; only its per-record callback is modelled.
- Layout sizing (`sizeForItemAt`, the header size, spacing) is floating-point UI constants.
- Cell and header dequeuing, registration, `reloadData` and `print` logging are rendering and I/O.
- `Post(user:dictionary:)` is not part of this model. A record is reduced to its `creationDate`, as an integer instead of a `Date`/`timeIntervalSince1970` double.
- Concurrency: the live subscription can interleave with in-flight page callbacks, and duplicate page fetches can be in flight. The source guards against neither. Each callback is one atomic step, and any order of steps is allowed (`Run`).
- `CellForItem` requires the index to be in range. The source indexes `posts` unchecked, and the collection view asks only for indexes below the item count.
- `PageKeepsNewestFirst` depends on two assumptions about the database's answer: it is ascending by creation date, and it lies at or before the query's bound. These are backend behaviour, not something the code checks.
