# socially: post card interactions and the demo task route

This project models two small stateful parts of the *socially* web application.

The first is the interaction state of one post card (`PostCard`), which has three handlers:

- **Like toggle.** Clicking the heart flips it and moves the like counter by one at once. The server action `toggleLike` is then awaited. If that call throws, the heart and the counter are reset. A re-entrancy flag (`isLiking`) drops clicks while a toggle is in flight.
- **Comment.** The draft is sent only when it does not trim to nothing and no comment is already being posted. The draft is cleared only when `createComment` reports success.
- **Delete.** A guarded call to `deletePost`. A non-success result is handled like a thrown error.

Each handler awaits one server action. In the model each handler is split at its `await` into two methods of the class `PostCard.CardState`. `Begin…` runs everything before the call. `Complete…` takes how the call ended: `Returned(success)` or `Threw`. The class records the calls it issues (`calls`) and the toasts it shows (`toasts`).

The pure parts live in separate modules:

- `LikeToggle` holds the initial like state (`post.likes.some(...)`), the optimistic flip, and the invariant the button keeps.
- `JsText` holds JavaScript's `String.prototype.trim`, which the comment guard uses.

The second part is the demo REST route for tasks, `TasksRoute.TaskStore`. It is a process-wide list seeded with two tasks. `GET` returns the list. `POST` validates the title and appends `{id: length + 1, title, completed: false}`.

Properties proved:

- **Drift of the like counter.** It never moves more than one from the stored count (`ConsistentWithinOne`). It is always the stored count adjusted by whether the heart differs from its state at mount (`CardState.Valid`).
- **Confirmed toggles.** The stored post is modelled as its likes, at most one per user, with a count that equals their number. One server toggle removes the viewer's like or adds one. After any number of confirmed toggles the card shows exactly what a fresh mount on the stored post would show (`ToggledMatchesServer`).
- **Rollback.** A failed toggle resets to the mount state. That equals the pre-click state exactly when the heart was then as at mount (`RollbackIsSnapshotIff`). `LikeScenario` walks through a like that succeeds followed by an unlike that fails. The card then shows "not liked" although the server holds the like.
- **Task numbering.** Every task's id is its position plus one, so ids are distinct. `PostScenario` shows a request without a title, which changes nothing, followed by a task that gets id 3.
- **Missing title.** The route answers a missing title with status 4000. `Response.json` rejects that status inside the `try`, so the request gets the catch branch's `{error: "Invalid POST!"}` with status 200.

Behaviour of the code worth knowing:

- On a failed toggle, the card resets to values recomputed from the `post` props (src/components/PostCard.tsx:37-38). It does not restore the state shown just before the click.
- A failed toggle shows no notification.
- A successful delete removes nothing from the card. It only shows a toast.
- A `toggleLike` that returns a failure result without throwing keeps the optimistic state, because the return value is never inspected.

## Model

| member | source | states |
|---|---|---|
| LikeToggle.SomeLikeBy | src/components/PostCard.tsx:26 | `likes.some(l => l.userId === dbUserId)` holds iff some like's user id equals the viewer's id; a signed-out viewer (null id) matches none |
| LikeToggle.MountView | src/components/PostCard.tsx:26-27 | the initial heart is on iff the viewer is among `post.likes`, and the initial count is `post._count.likes` |
| LikeToggle.Flip | src/components/PostCard.tsx:33-34 | the optimistic prediction negates the heart and moves the count by -1 if the heart was on before the click, +1 if it was off |
| LikeToggle.FlipTwice | src/components/PostCard.tsx:33-34 | two optimistic flips cancel: a confirmed like then a confirmed unlike restores the view |
| LikeToggle.FlipKeepsConsistent | src/components/PostCard.tsx:32-34 | the optimistic flip keeps the invariant "count = stored count adjusted by whether the heart differs from mount" |
| LikeToggle.ConsistentWithinOne | src/components/PostCard.tsx:26-41 | under the invariant the shown count stays within one of `post._count.likes`, and equals it iff the heart is as at mount |
| LikeToggle.RollbackIsSnapshotIff | src/components/PostCard.tsx:36-38 | the rollback target (the mount state) equals the state before the click iff the heart before the click was as at mount |
| LikeToggle.ToggledParity | src/components/PostCard.tsx:29-41 | n confirmed toggles equal one flip when n is odd and no change when n is even |
| LikeToggle.WithoutLikeBy | src/components/PostCard.tsx:35 | the server's unlike: the viewer has no like left, and every other user has liked the result iff they had liked the input |
| LikeToggle.WithoutLikeByStored | src/components/PostCard.tsx:35 | on likes with at most one per user, removing the viewer's likes keeps that shape and removes exactly one like iff the viewer had one |
| LikeToggle.AddLikeStored | src/components/PostCard.tsx:35 | adding a like for a viewer who has none keeps at most one like per user, and the viewer then has a like |
| LikeToggle.ServerToggleIsFlip | src/components/PostCard.tsx:26-35 | one server toggle of a stored post keeps it stored (one like per user, count = number of likes), and the view derived from it moves exactly as the optimistic flip predicts |
| LikeToggle.ToggledMatchesServer | src/components/PostCard.tsx:26-41 | after n confirmed toggles the card's view equals the view derived from the stored post after the viewer's n server toggles, which stays stored |
| JsText.TrimStart | src/components/PostCard.tsx:45 | the result is the longest suffix not starting with JS whitespace; every dropped character is whitespace |
| JsText.TrimEnd | src/components/PostCard.tsx:45 | the result is the longest prefix not ending with JS whitespace; every dropped character is whitespace |
| JsText.Trim | src/components/PostCard.tsx:45 | `trim()` returns the slice of its input left once a whitespace-only prefix and a whitespace-only suffix are dropped, and neither end of a non-empty result is whitespace |
| JsText.TrimEmptyIffBlank | src/components/PostCard.tsx:45 | `!newComment.trim()` holds iff every character of the draft is whitespace (including the empty draft) |
| PostCard.CardState.constructor | src/components/PostCard.tsx:19-27 | on mount the heart and count come from the post, all three flags are off, the draft is empty, no call issued and no toast shown |
| PostCard.CardState.BeginLike | src/components/PostCard.tsx:29-35 | while `isLiking` nothing changes and no `toggleLike` is issued; otherwise `isLiking` is set, the view is flipped using the pre-click heart, exactly one `toggleLike(post.id)` is issued, and nothing else changes |
| PostCard.CardState.CompleteLike | src/components/PostCard.tsx:35-41 | a returned call keeps the flipped view; a throw resets it to the mount-time values (not the pre-click state); `isLiking` ends false; no toast |
| PostCard.CardState.EditComment | src/components/PostCard.tsx:205 | typing replaces the draft, also while a comment is being posted |
| PostCard.CardState.BeginComment | src/components/PostCard.tsx:44-48 | a draft that trims to nothing or an in-flight comment changes nothing and issues no call; otherwise `isCommenting` is set and `createComment(post.id, draft)` is issued with the untrimmed draft |
| PostCard.CardState.CompleteComment | src/components/PostCard.tsx:48-57 | only a successful result clears the draft (success toast); a non-success result keeps it silently; a throw keeps it with an error toast; `isCommenting` ends false |
| PostCard.CardState.BeginDelete | src/components/PostCard.tsx:60-64 | while `isDeleting` nothing changes and no call is issued; otherwise `isDeleting` is set and one `deletePost(post.id)` issued |
| PostCard.CardState.CompleteDelete | src/components/PostCard.tsx:64-71 | success shows the success toast; a non-success result ends exactly like a throw (error toast); `isDeleting` ends false |
| TasksRoute.IdsUnique | src/app/api/tasks/route.ts:30 | when every id is its position plus one, ids are distinct and lie in 1..length |
| TasksRoute.JsonResponse | src/app/api/tasks/route.ts:26 | `Response.json` builds a response with the given status and body iff the status is within 200-599, and throws otherwise |
| TasksRoute.MissingTitleResponseThrows | src/app/api/tasks/route.ts:26 | the missing-title response with status 4000 cannot be built: `Response.json` throws |
| TasksRoute.TaskStore.constructor | src/app/api/tasks/route.ts:12-15 | the store starts with the two seed tasks, numbered by position |
| TasksRoute.TaskStore.Get | src/app/api/tasks/route.ts:17-19 | GET returns the current list with status 200 and changes nothing |
| TasksRoute.TaskStore.Post | src/app/api/tasks/route.ts:21-39 | an unparseable or null body ends in the catch branch: `{error: "Invalid POST!"}` with status 200; a missing or empty title is answered with status 4000, which `Response.json` rejects inside the try, so it gets the same catch response; in these cases the list is unchanged; otherwise exactly one task `{id: length + 1, title, completed: false}` is appended, earlier tasks unchanged and in order, and it is returned with status 201; the ids stay equal to positions plus one |

## Left out

- Rendering: the JSX of the card (src/components/PostCard.tsx:74-235) is not modelled. This covers layout, avatars, links, the `showComments` toggle, and the disabled states of buttons (the button guards repeat the handlers' own guards).
- Who may act: signed-in checks (`useUser`, `SignInButton`) and the author-only delete button are UI gating through the identity provider.
- Confirming a delete: the `DeleteAlertDialog` component is not part of this model. `BeginDelete` starts where that dialog calls `onDelete`.
- LikeToggle.ToggledMatchesServer: `toggleLike` is not part of this model. The stored side is modelled as that action is expected to behave: remove the viewer's like if there is one, add one otherwise, and count the likes. Likes or unlikes by other users in the meantime are not modelled.
- Server actions: the bodies of `toggleLike`, `createComment` and `deletePost` are not part of this model. Each is an `Outcome` parameter of the matching `Complete…` method.
- Toast text: only the kind of each toast is recorded.
- React scheduling: setters are immediate field updates. Batched renders and stale closures are not modelled, so two clicks that land before a re-render are outside this model.
- New props after mount: `post` is fixed when the card mounts. If a parent re-renders with a fresh post, the live state is kept but a rollback reads the new props. The model does not capture this.
- Timestamps: `formatDistanceToNow` only formats dates.
- TasksRoute.TaskStore.Post: transport is not modelled. JSON parsing is replaced by the `RequestBody` cases. Response construction is replaced by status and payload, together with the Fetch Standard's rule that `Response.json` throws for a status outside 200-599.
- TasksRoute.CreateTaskRequest: a truthy title that is not a string (a number, an object) would be stored as is. The model takes `title` to be a string or absent.
- The tasks page (src/app/tasks/page.tsx) is an HTTP fetch plus rendering.
- The user actions (src/actions/user.actions.ts) are find-or-create wrappers over the ORM and the identity provider.
