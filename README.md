# Last.fm notifier: a Dafny model of its registry and change detector

The Hubot script `src/lastfm-notifier.js` follows Last.fm users. It polls each
followed user's most recent track, and it posts `🎧 user: artist - name` to a
notification room when that track changes. Its state is one JavaScript object
in the robot's brain, `last_fm_notifier_users`. This object maps a username to
either the `{}` placeholder written by `follow` or the last song identifier
seen by a poll. Three chat commands (follow, forget, show) and the periodic
poll read and update it.

This project models that object and every operation on it:

- `Store` models the object as an ordered map. It keeps the keys in insertion
  order, which is the order `Object.keys` lists them in. Assignment (`Put`)
  and `delete` (`Remove`) follow JavaScript's rules for a username that is
  an own property of the object (see "## Left out" for inherited names).
- `Tracks` models the three field getters and their placeholders, and the
  `artist+album+name` song identifier.
- `Messages` models the rooms, the configuration and the text of every
  message. A message records what it says (`Text`), and `Render` gives the
  exact characters posted. It imports the decimal rendering of a status
  code from its own module, `Decimal`.
- `Detector` models the three-way decision (no change, seed, notify), one
  poll of one user (`CheckUser`) and one pass over a snapshot of the keys
  (`RunChecks`).
- `Commands` models start-up initialisation and the follow, forget and show
  commands, as functions from the registry to the new registry and the
  messages sent.
- `Lifecycle` holds properties of sequences of operations.
- `Bot.Notifier` is the imperative model. It is a class whose fields are the
  brain's registry and the outbox. Its methods update those fields in place,
  branch for branch as the handlers do. Each method is proved equal to the
  matching function above.

The registry can be `undefined`: start-up keeps the brain's value whenever
`stock_checker_holdings` is truthy, and the brain may hold nothing. Any
operation that touches an undefined registry throws a `TypeError`. The model
represents that registry as `None`, and such an operation changes nothing and
sends nothing.

Behaviours of the code that the model states outright:

- **Follow, then the first poll.** Follow stores `{}` (line 65). That value is
  truthy and never `===` an identifier, so the first poll that returns a
  track takes the notify branch and announces it
  (`FirstPollAfterFollowNotifies`). The seed branch runs only for a missing
  key, for example for a poll answered after a forget, and it then re-creates
  the key (`LatePollAfterForgetReinserts`).
- **Start-up.** When the script loads, the value the brain holds under
  `last_fm_notifier_users` at that moment is replaced by `{}`, unless the
  brain's unrelated `stock_checker_holdings` is truthy (lines 49-51,
  `InitForgetsFollowedUsers`). Whether followed users survive a restart
  therefore depends on when the brain's stored data arrives, which is not
  modelled (see "## Left out").
- **A 404 during a poll.** It is not told apart from other failures: like any
  status of 400 or more it posts a failure report to the error room
  (lines 121-124).
- **Follow on an already-followed user.** It re-verifies and overwrites any
  stored song with `{}`, so the user's current track is announced again
  (`RefollowRepeatsNotification`).
- **Follow's verification status.** Every status except exactly 404 counts as
  success, including 429 and 500 (line 62).
- **Identifier collisions.** The identifier joins the fields with a bare `+`,
  so two different tracks can share one identifier
  (`SongIdentifierCollision`, `CollisionHidesChange`). The identifier is
  injective only when no artist or album contains `+`
  (`SongIdentifierInjective`).

## Model

| member | source | states |
|---|---|---|
| `Tracks.TrackArtist` | src/lastfm-notifier.js:150-152 | The artist's `#text` when it is present, and `<Unknown Artist>` when the path is undefined. |
| `Tracks.TrackAlbum` | src/lastfm-notifier.js:154-156 | The album's `#text` when it is present, and `<Unknown Album>` when the path is undefined. |
| `Tracks.TrackName` | src/lastfm-notifier.js:158-160 | The track's name when it is present, and `<Untitled Track>` when it is undefined. |
| `Tracks.SongIdentifier` | src/lastfm-notifier.js:162-167 | The identifier starts with the artist and ends with the title, with room for two separators. It is never empty, so as a stored value it is truthy. |
| `Tracks.SameFieldsSameIdentifier` | src/lastfm-notifier.js:162-167 | Tracks whose resolved artist, album and title agree get equal identifiers. |
| `Tracks.SplitAtFirstPlus` | src/lastfm-notifier.js:166 | A `+`-joined pair splits back uniquely when its first part has no `+`. |
| `Tracks.SongIdentifierInjective` | src/lastfm-notifier.js:162-167 | When no artist or album contains `+`, two identifiers are equal exactly when the resolved field triples are equal. |
| `Tracks.SongIdentifierCollision` | src/lastfm-notifier.js:162-167 | Without that condition, two tracks with different artists (`A+B`/`C` and `A`/`B+C`) share one identifier. |
| `Decimal.NatToString` | src/lastfm-notifier.js:123 | A status code prints as a non-empty run of decimal digits with no leading zero. |
| `Decimal.ValueOfNatToString` | src/lastfm-notifier.js:123 | Reading the printed digits back gives the number. |
| `Decimal.NatToStringInjective` | src/lastfm-notifier.js:123 | Different status codes print differently. |
| `Messages.FailureTextNamesStatus` | src/lastfm-notifier.js:123 | Two failure reports for the same user read the same only if they carry the same status code. |
| `Messages.NowPlayingOf` | src/lastfm-notifier.js:142 | The now-playing message names the polled user, the track's artist and its title, each replaced by its placeholder when missing; the album is not part of it. |
| `Messages.Render` | src/lastfm-notifier.js:63-142 | The characters of each message, as in the template literals at lines 63, 66, 71, 82, 87, 101, 118, 123 and 142. No message is empty. |
| `Messages.RenderRepliesOpenWithUser` | src/lastfm-notifier.js:63-66 | The not-found reply and the follow confirmation open with the user's name. |
| `Messages.RenderAnnouncementsOpenWithRequester` | src/lastfm-notifier.js:71-87 | The add and remove announcements open with the requester's name. |
| `Messages.RenderListingOpensWithHeader` | src/lastfm-notifier.js:101 | A listing is its header followed by the body. |
| `Messages.RenderEndsWithTitle` | src/lastfm-notifier.js:142 | A now-playing message ends with the track's title. |
| `Messages.ListBody` | src/lastfm-notifier.js:100-101 | Every listed user is followed by a line break, so a non-empty listing ends with one. |
| `Messages.LinesOfListBody` | src/lastfm-notifier.js:100-101 | Read back line by line, the listing body gives exactly the keys in their order, provided no key contains a line break. |
| `Store.LookupListed` | src/lastfm-notifier.js:134-136 | When the key order lists every key exactly once (`Store.Valid`), `registry[user]` is defined exactly when `Object.keys` lists the user, and then it is the stored value. |
| `Store.Put` | src/lastfm-notifier.js:65 | Assignment stores the value under the key and leaves every other key's value alone. An existing key keeps its place in the key order; a new key goes last. |
| `Store.Without` | src/lastfm-notifier.js:81 | The remaining keys are exactly the old keys other than the deleted one. |
| `Store.WithoutDistinct` | src/lastfm-notifier.js:81 | Deleting keeps the key order free of repeats. |
| `Store.WithoutAt` | src/lastfm-notifier.js:81 | Deleting the key at position i closes the gap and keeps every other key in its order. |
| `Store.WithoutAbsent` | src/lastfm-notifier.js:81 | Deleting a key that is not there leaves the order as it was. |
| `Store.Remove` | src/lastfm-notifier.js:81 | `delete` makes the key absent and leaves every other key's value alone. |
| `Store.RemoveOrder` | src/lastfm-notifier.js:81 | After `delete`, the other keys keep their order, and nothing moves if the key was absent. |
| `Store.RemoveIdempotent` | src/lastfm-notifier.js:81 | Deleting twice is the same as deleting once. |
| `Detector.Decide` | src/lastfm-notifier.js:134-143 | No change exactly when the stored value is the same identifier. Seed exactly when the stored value is absent or falsy. Notify exactly when the stored value is truthy and different, which includes the `{}` placeholder. |
| `Detector.CheckUser` | src/lastfm-notifier.js:110-148 | A poll changes at most the polled user's entry and never drops a key. It adds the user's key (last) only if it was missing. It posts at most one message and keeps every stored value truthy. |
| `Detector.CheckUserNoChange` | src/lastfm-notifier.js:134-135 | The same song as last time: the registry is unchanged and nothing is posted. |
| `Detector.CheckUserSeed` | src/lastfm-notifier.js:136-138 | Absent or falsy stored value: the new identifier is stored and nothing is posted. |
| `Detector.CheckUserNotify` | src/lastfm-notifier.js:139-142 | Placeholder or different song: the new identifier is stored and exactly one now-playing message goes to the notification room. |
| `Detector.CheckUserFailures` | src/lastfm-notifier.js:115-146 | Status 429 posts only the rate-limit report to the error room. Any other status of 400 or more posts only the failure report with its code. An empty track list posts nothing. In all three cases the registry is unchanged. |
| `Detector.SeedOnlyWhenAbsent` | src/lastfm-notifier.js:134-138 | While every stored value is truthy, the poll seeds exactly when the user's key is missing. |
| `Detector.CheckUserLocal` | src/lastfm-notifier.js:130-143 | What a poll does to a user depends only on that user's stored value. |
| `Detector.CheckUserIdempotent` | src/lastfm-notifier.js:133-140 | For an answer with a status below 400, polling again with the same answer changes nothing and posts nothing. (A repeated 429 or other failure posts its report again, as `Detector.CheckUserFailures` states.) |
| `Detector.RunChecks` | src/lastfm-notifier.js:104-108 | A pass leaves keys outside its snapshot untouched. It keeps the key order when every snapshot key is in the registry, and keeps every stored value truthy. |
| `Detector.RunChecksEntry` | src/lastfm-notifier.js:104-108 | Each user ends the pass with the entry its own poll alone would give it, whatever the other users' answers were. |
| `Detector.RunChecksSent` | src/lastfm-notifier.js:104-108 | A pass posts, in snapshot order, exactly what each user's poll would post on its own. A failure for one user therefore changes no other user's messages. |
| `Commands.InitUsers` | src/lastfm-notifier.js:49-51 | The registry is undefined after loading exactly when `stock_checker_holdings` is truthy and the brain holds nothing under the key at that moment. Loading keeps the key order listing every key exactly once (`Store.Valid`). |
| `Commands.InitForgetsFollowedUsers` | src/lastfm-notifier.js:49-51 | Unless `stock_checker_holdings` is truthy, loading leaves an empty registry, whatever the brain held under the key at that moment. Otherwise it keeps that value, possibly undefined. |
| `Commands.Announce` | src/lastfm-notifier.js:69-74 | Exactly one announcement, to the notification room, when the command came from another room; none otherwise. |
| `Commands.Follow` | src/lastfm-notifier.js:61-76 | Follow leaves the registry defined or undefined as it found it. It keeps the key order listing every key exactly once (`Store.Valid`) and keeps every stored value truthy (`Store.AllTruthy`). |
| `Commands.Forget` | src/lastfm-notifier.js:79-91 | Forget leaves the registry defined or undefined as it found it. It keeps the key order listing every key exactly once (`Store.Valid`) and keeps every stored value truthy (`Store.AllTruthy`). |
| `Commands.FollowNotFound` | src/lastfm-notifier.js:62-63 | A 404 leaves the registry unchanged and only tells the requester the user was not found. Nothing is announced. |
| `Commands.FollowAdds` | src/lastfm-notifier.js:64-74 | Any other status maps the user to `{}`, overwriting a stored song, and changes no other user. An already-followed user keeps their place in the key order; a new one goes last. The requester gets a confirmation and the listing. The addition is announced to the notification room, as the third message, exactly when the command came from elsewhere. Exactly two messages are sent, or three with the announcement. |
| `Commands.FollowUndefined` | src/lastfm-notifier.js:65 | With the registry undefined, a successful follow throws before any reply: nothing changes and nothing is sent. |
| `Commands.ForgetRemoves` | src/lastfm-notifier.js:79-91 | Forget deletes the key, present or not, and changes no other user. The other keys keep their order. The requester gets the acknowledgement and the listing. The removal is announced exactly when the command came from elsewhere. Exactly two messages are sent, or three with the announcement. |
| `Commands.ShowUsers` | src/lastfm-notifier.js:93-95 | Show sends exactly one message, the listing of the current key order, to the room it came from; with the registry undefined it sends nothing. |
| `Commands.ForgetIdempotent` | src/lastfm-notifier.js:81 | Forgetting twice leaves the registry as forgetting once. |
| `Commands.ShowUsersListsKeys` | src/lastfm-notifier.js:93-102 | Show replies to the requester with one message: the header, then lines that read back as exactly the registry's keys, in order. |
| `Lifecycle.FirstPollAfterFollowNotifies` | src/lastfm-notifier.js:134-142 | After a follow, the first poll that returns a track announces it and stores its identifier. It does not seed. |
| `Lifecycle.RefollowRepeatsNotification` | src/lastfm-notifier.js:134-142 | A track that an unchanged poll would pass over silently is announced again after a repeated follow. |
| `Lifecycle.LatePollAfterForgetReinserts` | src/lastfm-notifier.js:136-138 | A poll answered after a forget seeds silently and re-creates the user's key as the last key. |
| `Lifecycle.ChangeDetectionExample` | src/lastfm-notifier.js:139-142 | A user stored on `Daft Punk+Discovery+One More Time` who now plays "Harder Better Faster Stronger" is announced as `🎧 alice: Daft Punk - Harder Better Faster Stronger`, and the new identifier is stored. |
| `Lifecycle.CollisionHidesChange` | src/lastfm-notifier.js:162-167 | A switch between two colliding tracks posts nothing and leaves the registry unchanged. |
| `Bot.Notifier.constructor` | src/lastfm-notifier.js:49-51 | The registry after loading is the start-up value, and the outbox is empty. |
| `Bot.Notifier.ListFollowedUsers` | src/lastfm-notifier.js:99-102 | Appends the listing of the current keys to the outbox, addressed to the requester's room. |
| `Bot.Notifier.Follow` | src/lastfm-notifier.js:58-77 | The registry and outbox after the handler are those given by `Commands.Follow`. |
| `Bot.Notifier.Forget` | src/lastfm-notifier.js:79-91 | The registry and outbox after the handler are those given by `Commands.Forget`. |
| `Bot.Notifier.ShowUsers` | src/lastfm-notifier.js:93-95 | The outbox gains the messages given by `Commands.ShowUsers`. |
| `Bot.Notifier.CheckUserForNewActivity` | src/lastfm-notifier.js:110-148 | The in-place branches leave the registry and outbox given by `Detector.CheckUser`. |
| `Bot.Notifier.RunChecksForAllUsers` | src/lastfm-notifier.js:104-108 | The loop over the key snapshot leaves the registry and outbox given by `Detector.RunChecks`. With the registry undefined, nothing changes. |

## Left out

- The cron job, its schedule and its time zone (lines 53-56) are a timer library. One pass of the poll is modelled as a loop over a key snapshot.
- HTTP requests and URL construction (lines 60-61, 111-114) are network I/O. Each request's answer is an input: a status code and, below 400, the optional first track.
- A request that fails without a response leaves `res` undefined, and `res.statusCode` then throws. This network error path is not modelled.
- `JSON.parse` and the `recenttracks.track[0]` access (lines 128-130) are foreign parsing. A malformed body throws there and is not modelled. A track field is either a string or missing. JSON `null`, numbers or objects at those paths, which the template literal would print as text, are not modelled.
- The environment variables and the start-up guards (lines 26-47) read the process environment. This includes the repeated notification-room check at line 44, which means a missing error room is never detected. The configuration is a parameter, and an unset error room is `Unset`.
- Logger calls are not modelled. `message.send` and `robot.messageRoom` are appends to the outbox; delivery is not modelled.
- The command regexes (lines 58, 79, 93) belong to the chat framework. Usernames, the requester's name and the origin room are given strings.
- Asynchronous interleaving is not modelled. Poll answers are handled in snapshot order, and commands run between passes. The forget-versus-poll race appears only as `LatePollAfterForgetReinserts`.
- `Store.Lookup`, `Store.Put`, `Store.Remove`: model the registry as a plain dictionary of own keys. The real `{}` inherits from `Object.prototype`, and the command pattern accepts names such as `constructor`, `toString`, `valueOf` and `__proto__`. For those, `registry[name]` reads an inherited, truthy value when the key is absent, so a late poll notifies instead of seeding. Assigning `__proto__` replaces the prototype and adds no key, so that user never appears in the listing or a poll. The model does not capture either behaviour.
- `Store.Put`: "a new key goes last" does not hold for integer-like keys (such as `"42"`), which JavaScript lists before other keys in numeric order. The key order here is insertion order only.
- Loading and saving the brain are asynchronous. The brain's value under `last_fm_notifier_users` at the moment the script loads is a parameter of the constructor, assumed to be a value this script writes.
- `Commands.InitUsers`: a brain that merges its stored data in after the script has loaded writes the saved `last_fm_notifier_users` back over the `{}`, and then the followed users survive the restart. The model only covers the reset itself, not that later overwrite.
