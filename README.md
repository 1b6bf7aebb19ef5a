# Client-side stores of the user-admin dashboard, in Dafny

The dashboard keeps its state in three independent stores:

- the **user roster** (`src/lib/stores/users.store.ts`): an ordered list of user records. It can be added to, updated, deleted from and reset to a fixed seed list. After every change it writes the whole list to browser storage. At start-up in a browser it loads the stored list, or else installs the seed and stores it. Outside a browser it starts empty;
- the **alert list** (`src/lib/stores/alerts.store.ts`): transient notifications. `show` appends one and returns its id. When the duration is positive, `show` also schedules a removal of that id. `remove`, `clear` and `set` change the list directly;
- the **theme** (`src/lib/stores/themes.store.ts`): one string. It starts from the stored value, or else from the system dark-mode preference, or else `"light"`. `toggleTheme` and `setTheme` change it and store it.

Each store is a Dafny class holding its in-memory value. The roster and theme classes also hold the value under their storage key (`StorageKey` in each module). It is an `Option`, where `None` means the key was never written. Their `browser` field says whether storage exists at all, which is the source's `typeof window !== "undefined"`. The alert class touches no storage. Besides the list it holds the removals that are scheduled but have not run. The changes themselves are pure functions: the append, the `map` of `updateUser` and the `filter` by id. Each method's postcondition ties the new state to one of those functions, and lemmas state what the functions promise.

Files:

- `wrappers.dfy`: `Option`.
- `strings.dfy`: the JavaScript built-ins the stores use. These are `split` with a one-character separator and ASCII `toUpperCase`. `Join` with that separator is there as the inverse of `Split`; the stores themselves only call `join("")`, which the initials code writes as concatenation.
- `keyed_lists.dfy`: `filter(r => r.id !== id)`, shared by the roster and the alert list, with its lemmas.
- `user_types.dfy`, `alert_types.dfy`: the record types of `src/lib/types/`.
- `users_store.dfy`, `alerts_store.dfy`, `themes_store.dfy`: one module per store.

Things the environment supplies are parameters:

- ids from `crypto.randomUUID`, with a precondition that the id is fresh;
- the ISO timestamp and `Date.now()`;
- the test for `window`;
- the dark-mode query, as an `Option<bool>` that is `None` when `matchMedia` is missing.

The five seed ids are drawn once, when the module loads, so they are a constructor parameter. `reset` restores that same list.

The model follows the code where it is narrower or looser than the stores' intended contract:

- Initials come from splitting on a single `" "`, not on any whitespace. An empty token gives nothing.
- The initial theme is the stored string as it is, even when it is neither `"light"` nor `"dark"`. On such a value two toggles give `"dark"`, not the original value.
- `show` accepts any duration. Only `duration > 0` schedules a removal, so zero and negative durations behave alike.
- In a browser the roster starts from the seed list when storage is empty. Outside a browser it starts empty and nothing is stored. `reset` restores the seed.
- `info` uses the kind `"default"`.

## Model

| member | source | states |
|---|---|---|
| `Strings.Split` | src/lib/stores/users.store.ts:108 | `split` gives one more piece than there are separators. No piece contains the separator, and joining the pieces gives back the input. |
| `Strings.SplitJoin` | src/lib/stores/users.store.ts:108 | `split` undoes `join` for any non-empty list of separator-free pieces. With `Split`'s last postcondition, the two are inverse bijections. |
| `Strings.SplitFirst` | src/lib/stores/users.store.ts:73 | The first piece of a split is the longest prefix that has no separator. |
| `Strings.UpperChar` | src/lib/stores/users.store.ts:111 | Upper-casing a character never yields a lower-case ASCII letter. A letter `a`-`z` becomes its capital, 32 code points lower, and anything else is kept. |
| `Strings.ToUpper` | src/lib/stores/users.store.ts:111 | `toUpperCase` keeps the length, works character by character, and leaves no lower-case ASCII letter. |
| `Strings.ToUpperIdempotent` | src/lib/stores/users.store.ts:111 | Upper-casing twice is upper-casing once. |
| `Strings.ToUpperConcat` | src/lib/stores/users.store.ts:111 | Upper-casing distributes over concatenation. |
| `UsersStore.FirstChar` | src/lib/stores/users.store.ts:109 | `word[0]` joins as one character of a non-empty word, and as nothing for an empty word, since `undefined` joins as `""`. |
| `UsersStore.Heads` | src/lib/stores/users.store.ts:109-110 | The joined first characters are at most one per token, and exactly one per token when no token is empty. |
| `UsersStore.GetUserInitials` | src/lib/stores/users.store.ts:106-112 | The initials have no lower-case ASCII letter. Their length is at most the number of `" "`-separated tokens, which is the number of spaces plus one. The length equals that number when no token is empty. |
| `UsersStore.InitialsAreWordStarts` | src/lib/stores/users.store.ts:106-112 | The initials are the upper-cased characters that are not spaces and stand at the start of the name or right after a space. This is an independent definition that does not split. |
| `UsersStore.InitialsOfWords` | src/lib/stores/users.store.ts:106-112 | A name joined from space-free words has as initials those words' first characters, upper-cased. |
| `UsersStore.TwoWordInitials` | src/lib/stores/users.store.ts:106-112 | A first and a last name joined by one space give their two first characters, upper-cased. |
| `UsersStore.OneSpaceInitials` | src/lib/stores/users.store.ts:106-112 | A name with exactly one space, strictly inside it, gives the upper-cased first character and the character after the space. |
| `UsersStore.SeedAvatarAgrees` | src/lib/stores/users.store.ts:7-48 | Every seed record's avatar ("JD", "JS", "RJ", "ED", "MW") is the initials of its name, as `addUser` and `updateUser` would compute it. |
| `UsersStore.AnnLeeInitials` | src/lib/stores/users.store.ts:106-112 | "Ann Lee" gives the avatar "AL". |
| `UsersStore.InitialUsers` | src/lib/stores/users.store.ts:7-48 | The seed has five records, and record `i` carries the `i`-th drawn id. |
| `UsersStore.InitialUsersUnique` | src/lib/stores/users.store.ts:7-48 | Distinct drawn ids give a seed with unique ids. |
| `UsersStore.DatePart` | src/lib/stores/users.store.ts:73 | The join date is the prefix of the ISO timestamp before its first `T`. It contains no `T`, and the timestamp continues with `T` unless the date is all of it. |
| `UsersStore.NewUser` | src/lib/stores/users.store.ts:69-74 | The added record keeps the input's name, email and role. It has the fresh id, the initials of the name as avatar, and the date part of the timestamp as join date. |
| `UsersStore.AddedUsers` | src/lib/stores/users.store.ts:75 | Adding grows the list by one. The old records stay in place and in order, and the new record is last. |
| `UsersStore.AddIgnoresGeneratedFields` | src/lib/stores/users.store.ts:69-74 | The input's id, avatar and join date play no part; only its name, email and role do. |
| `UsersStore.AddKeepsUnique` | src/lib/stores/users.store.ts:69-75 | Adding under a fresh id keeps ids unique. |
| `UsersStore.Revised` | src/lib/stores/users.store.ts:84 | The updated record is the input with every field kept, except that the avatar is recomputed from the input's name. |
| `UsersStore.UpdatedUsers` | src/lib/stores/users.store.ts:82-86 | Updating keeps the length. Each record with the matching id becomes the revised input, and every other record is unchanged in its place. |
| `UsersStore.UpdateAbsent` | src/lib/stores/users.store.ts:82-86 | Updating an id that no record has leaves the list unchanged. |
| `UsersStore.UpdateKeepsIds` | src/lib/stores/users.store.ts:82-86 | Updating leaves the sequence of ids exactly as it was. |
| `UsersStore.UpdateIdempotent` | src/lib/stores/users.store.ts:82-86 | Applying the same update twice is applying it once. |
| `UsersStore.UpdateIgnoresAvatar` | src/lib/stores/users.store.ts:83-84 | Any avatar supplied with the update is ignored. |
| `UsersStore.DeletedUsers` | src/lib/stores/users.store.ts:93 | After deleting, no record has the id. A record survives exactly when it was there with another id, and the survivors keep their relative order. |
| `UsersStore.DeleteIdempotent` | src/lib/stores/users.store.ts:93 | Deleting twice is deleting once, and deleting an absent id changes nothing. |
| `UsersStore.DeleteExactlyOne` | src/lib/stores/users.store.ts:93 | With unique ids, deleting the id at index `i` removes exactly record `i`. |
| `UsersStore.DeleteUndoesAdd` | src/lib/stores/users.store.ts:75 | Deleting the record just added under a fresh id restores the list from before the add. |
| `UsersStore.DeleteKeepsUnique` | src/lib/stores/users.store.ts:93 | Deleting keeps ids unique. |
| `UsersStore.Loaded` | src/lib/stores/users.store.ts:51-62 | Outside a browser the roster starts empty. In a browser it starts from the stored list when there is one, and from the seed otherwise. |
| `UsersStore.Reopen` | src/lib/stores/users.store.ts:50-63 | A new browser store built from what a valid browser store left in storage starts with that store's list and leaves storage unchanged, whatever its seed ids. |
| `UsersStore.UserStore.constructor` | src/lib/stores/users.store.ts:50-63 | Initialisation loads the stored list. When nothing is stored in a browser, it loads the seed and writes the seed to storage. Storage then agrees with memory. |
| `UsersStore.UserStore.Persist` | src/lib/stores/users.store.ts:76-77 | In a browser, storage becomes the in-memory list. Otherwise storage is untouched. |
| `UsersStore.UserStore.AddUser` | src/lib/stores/users.store.ts:67-79 | The list becomes `AddedUsers` of the old list, and storage mirrors it in a browser. |
| `UsersStore.UserStore.UpdateUser` | src/lib/stores/users.store.ts:80-90 | The list becomes `UpdatedUsers` of the old list, and storage mirrors it in a browser. |
| `UsersStore.UserStore.DeleteUser` | src/lib/stores/users.store.ts:91-97 | The list becomes `DeletedUsers` of the old list, and storage mirrors it in a browser. |
| `UsersStore.UserStore.Reset` | src/lib/stores/users.store.ts:98-102 | The list becomes the seed, and storage holds the seed in a browser. |
| `KeyedLists.Without` | src/lib/stores/users.store.ts:93 | Filtering by id leaves no record with that id and never lengthens the list. |
| `KeyedLists.WithoutMembers` | src/lib/stores/users.store.ts:93 | A record survives the filter exactly when it was in the list with a different id. |
| `KeyedLists.WithoutAbsent` | src/lib/stores/alerts.store.ts:45 | Filtering out an id that no record has changes nothing. |
| `KeyedLists.WithoutIdempotent` | src/lib/stores/alerts.store.ts:45 | Filtering twice by one id is filtering once. |
| `KeyedLists.WithoutConcat` | src/lib/stores/alerts.store.ts:45 | The filter distributes over concatenation. |
| `KeyedLists.WithoutKeepsOrder` | src/lib/stores/users.store.ts:93 | The survivors form a subsequence of the list: their relative order is kept. |
| `KeyedLists.WithoutUnique` | src/lib/stores/users.store.ts:93 | With unique ids, filtering by the id at index `i` removes exactly element `i`. |
| `KeyedLists.WithoutKeepsUnique` | src/lib/stores/users.store.ts:93 | Filtering keeps ids unique. |
| `AlertsStore.RemovedAlerts` | src/lib/stores/alerts.store.ts:45 | After removal, no alert has the id. An alert survives exactly when it was there with another id, and the survivors keep their order. |
| `AlertsStore.RemoveIdempotent` | src/lib/stores/alerts.store.ts:45 | Removing twice is removing once, and removing an absent id changes nothing. |
| `AlertsStore.RemoveUndoesShow` | src/lib/stores/alerts.store.ts:21 | Removing the alert just shown under a fresh id restores the list from before `show`. |
| `AlertsStore.RemoveKeepsOthers` | src/lib/stores/alerts.store.ts:26 | A removal, scheduled or explicit, leaves every alert with another id in the list. |
| `AlertsStore.AlertStore.constructor` | src/lib/stores/alerts.store.ts:5 | The store starts with no alerts and no scheduled removals. |
| `AlertsStore.AlertStore.Show` | src/lib/stores/alerts.store.ts:7-31 | `show` appends exactly one alert with the given id, message, kind, duration and timestamp, and returns the id. Kind defaults to "default" and duration to 5000. A removal of that id is scheduled if and only if the duration is positive. The id is fresh: no alert and no scheduled removal carries it, so a zero-duration alert has no removal pending for it. |
| `AlertsStore.AlertStore.ShowSuccess` | src/lib/stores/alerts.store.ts:35-37 | `success` is `show` with kind "success", passing the duration through (default 5000). |
| `AlertsStore.AlertStore.ShowError` | src/lib/stores/alerts.store.ts:38-40 | `error` is `show` with kind "error", passing the duration through (default 5000). |
| `AlertsStore.AlertStore.ShowInfo` | src/lib/stores/alerts.store.ts:41-43 | `info` is `show` with kind "default", passing the duration through (default 5000). |
| `AlertsStore.AlertStore.Remove` | src/lib/stores/alerts.store.ts:44-46 | The list becomes `RemovedAlerts` of the old list. |
| `AlertsStore.AlertStore.Clear` | src/lib/stores/alerts.store.ts:47 | The list becomes empty. |
| `AlertsStore.AlertStore.Set` | src/lib/stores/alerts.store.ts:48 | The list becomes exactly the given list. |
| `AlertsStore.AlertStore.RunRemoval` | src/lib/stores/alerts.store.ts:24-28 | Any pending removal, in any order, applies the same filter as `remove` and is then no longer pending. Every alert whose id no pending removal carries survives it. |
| `ThemesStore.InitialTheme` | src/lib/stores/themes.store.ts:4-18 | In a browser, a truthy stored value is the initial theme as it is. Otherwise the theme is "light" or "dark", and it is "dark" exactly when in a browser with a dark-mode query that is available and matches. |
| `ThemesStore.Toggled` | src/lib/stores/themes.store.ts:27 | Toggling always gives "light" or "dark". It flips a light or dark theme, and any other value becomes "light". |
| `ThemesStore.ToggleTwice` | src/lib/stores/themes.store.ts:27 | Two toggles restore "light" or "dark". A value that is neither becomes "light", then "dark". |
| `ThemesStore.Reopen` | src/lib/stores/themes.store.ts:4-21 | A new browser store built from what a valid browser store left in storage starts with that store's theme, once that store has changed its theme or started from a usable stored value. |
| `ThemesStore.ThemeStore.constructor` | src/lib/stores/themes.store.ts:20-21 | The store starts from `InitialTheme` and writes nothing to storage. |
| `ThemesStore.ThemeStore.ToggleTheme` | src/lib/stores/themes.store.ts:25-32 | The theme becomes `Toggled` of the old one. In a browser, storage holds the new theme after one more write. |
| `ThemesStore.ThemeStore.SetTheme` | src/lib/stores/themes.store.ts:33-38 | The theme becomes exactly the given light or dark value. In a browser, storage holds it after one more write. The store invariant keeps the theme light or dark once any change has happened. |

## Left out

- The Svelte `writable` subscribe and notify machinery is not modelled. The state is held in class fields.
- `localStorage` and JSON are left out. Storage is an `Option` holding the value itself. A roster stored as the empty string is falsy and would count as absent, but `JSON.stringify` never writes one, so the model has no such value. Parse failures on load are not modelled; the code does not handle them.
- `crypto.randomUUID`, `Date.now()` and `new Date().toISOString()` are parameters. Fresh ids are a precondition of `AddUser` and `Show`. For `Show`, fresh means unused by the list and by every scheduled removal, as a new random UUID is.
- `setTimeout` timing is left out. A scheduled removal is an entry in `pending` that `RunRemoval` may run at any time and in any order; delays and firing times are not modelled.
- `window` and `window.matchMedia` are parameters: the `browser` flag and `prefersDark`.
- `toUpperCase` is modelled on ASCII letters only. Other characters are kept, whereas JavaScript also upper-cases non-ASCII letters and may change the length (`ß` gives `SS`). `word[0]` is modelled as the first Dafny character, not the first UTF-16 code unit.
- Durations and timestamps are unbounded integers. JavaScript numbers are floating point, and `NaN` or fractional durations are not modelled.
- An object spread copies any extra properties of the input. The records here have exactly the fields of the source's types.
