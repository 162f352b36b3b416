# Three users' common games — a verified model

The application is a small web server that shows which games three fixed
users of a game platform all own, and each user's own game list. It asks the
platform's web API for each user's owned games and for the full app catalog
(app id to display name), intersects the users' app ids, turns ids into names
through the catalog, and keeps each page's list in a JSON file that is served
for 24 hours before it is rebuilt.

This project models the logic inside that glue, with the network and the disk
replaced by values:

- `Steam` (`steam.dfy`): the API replies as datatypes (`CatalogReply`,
  `OwnedGamesReply`), where a missing JSON field reads as the empty list and a
  catalog request that raised reads as `FetchFailed`; the catalog lookup
  `get_game_name` as the specification function `FindName` and the scanning
  loop `GetGameName` proved against it.
- `Library` (`library.dfy`): the name list of one user (`UserGameNames`, the
  comprehension in `get_games_list`), the app-id sets and their three-way
  intersection (`IdsOf`, `CommonIds`), and `get_common_games` as the method
  `GetCommonGames`. Python walks the intersection set in an order nobody may
  rely on; the method takes ids out of the set by an unspecified choice, and
  its result is specified as a multiset (`NameBag`), never as a sequence.
- `GameFiles` (`game_files.dfy`): the cache directory as a class whose field
  `files` maps a file name to the stored names and the modification time, in
  whole seconds. `GetGamesList` and `CommonGames` check the file, then either
  return what it holds or recompute, overwrite the file stamped with the
  current time, and return what they wrote.
- `Sets` and `Wrappers`: a non-deterministic choice from a set, a set-size
  fact, and `Option`.

A comprehension keeps a game only when `get_game_name` returns a truthy value
(app.py:55, app.py:69, app.py:75), so a catalog name that is the empty string
is dropped just like an id that is not in the catalog (`Shown`).

Every lookup in one computation uses the same catalog reply. The source fetches
the catalog again for every lookup, and twice per id in each comprehension;
with one fixed reply those calls all agree.

## Model

| member | source | states |
|---|---|---|
| Steam.AppList | app.py:34 | a failed catalog request or a reply without the apps list is the empty catalog; otherwise the catalog is the reply's list |
| Steam.OwnedGames | app.py:26 | a reply without the `games` field is the empty list; otherwise the user's games are the reply's list |
| Steam.Resolve | app.py:38-41 | one lookup against a catalog reply: None after a failed request, and None exactly when no catalog entry has the id |
| Steam.FindName | app.py:35-38 | no catalog entry has the id exactly when the result is None; a returned name belongs to an entry with that id |
| Steam.FindNameIsFirstMatch | app.py:35-37 | the name returned is that of the first entry with the id; entries with the same id further on are never returned |
| Steam.GetGameName | app.py:29-41 | the scan returns the first matching entry's name, None when no entry matches, and None when the catalog request failed |
| Library.Shown | app.py:55 | a kept name is the lookup's result and is not empty; a dropped id is one whose lookup gave None or the empty name |
| Library.IdsOf | app.py:49-51 | every record's app id is in the set, and every id in the set is some record's app id |
| Library.CommonIds | app.py:53 | the common ids lie in each user's id set, and every id in all three sets is common |
| Library.UserGameNames | app.py:68-69 | a user's name list is no longer than the owned-games list and never holds an empty name |
| Library.UserGameNamesSound | app.py:69 | every name on a user's list is the resolved name of one of that user's games |
| Library.UserGameNamesComplete | app.py:75 | every owned game whose name resolves contributes that name to the list |
| Library.UserGameNamesAppend | app.py:74-75 | the list follows the owned-games order: the names of a concatenation are the concatenation of the names |
| Library.UserGameNamesAllResolved | app.py:69 | when every game resolves, the list has the same length and position i holds the name of game i |
| Library.NameBagRemove | app.py:53-55 | the collected names do not depend on the order in which the intersection is walked |
| Library.NameBagCount | app.py:55 | each name occurs in the common-games result once per common id that resolves to it |
| Library.NameBagMembers | app.py:55 | a name is in the result exactly when some id of the set resolves to it; unresolved ids leave nothing |
| Library.NameBagSize | app.py:55 | the result has at most one name per id |
| Library.IdsOfSize | app.py:49-51 | a user's id set is no larger than the user's owned-games list |
| Library.CommonNamesBound | app.py:49-55 | the result is no larger than the intersection, which is no larger than any single user's id set or list |
| Library.ListedNames | app.py:53-55 | a list with the intersection's names holds exactly the names resolved from common ids and is no longer than the intersection |
| Library.GetCommonGames | app.py:44-55 | the returned names are, with repetition, the resolved names of the ids all three users own; exactly those names appear; at most one per common id |
| Library.ThreeUsersExample | app.py:49-55 | users owning {1,2,3}, {2,3,4} and {2,3,5} with a catalog naming 2 and 3 share exactly "Portal" and "Half-Life" |
| GameFiles.IsCurrent | app.py:62-64 | a file is served only if it exists; it is current when its modification time is at or after the clock reading, and stale once it is 86400 seconds old or more |
| GameFiles.Written | app.py:70-71 | a write replaces the file's entry with the new names stamped with the current time and leaves every other file as it was |
| GameFiles.WrittenIsServed | app.py:62-66 | a list written at T is current at any T' with T' - T below 86400 seconds and is read back unchanged |
| GameFiles.WrittenExpires | app.py:62-67 | a list written at T is stale at any T' with T' - T of 86400 seconds or more |
| GameFiles.GameFileCache.Write | app.py:76-77 | writing a file replaces only that file's entry, stamped with the current time |
| GameFiles.GameFileCache.GetGamesList | app.py:58-78 | a current file is returned unchanged and nothing is written; otherwise the user's name list is rebuilt, written to that file at the current time and returned |
| GameFiles.GameFileCache.CommonGames | app.py:81-99 | a current common-games file is returned unchanged and nothing is written; otherwise the common games are recomputed, written at the current time and returned |
| GameFiles.RebuiltListIsServed | app.py:62-78 | a user's page rebuilt at T and requested again at T' with T' - T below 86400 seconds returns the rebuilt list a second time, and the store holds only that one write |

## Left out

- The HTTP requests to the platform API (app.py:23-26, app.py:30-34): their replies are parameters. A transport failure of the owned-games request, which the source lets propagate and fail the page, is not modelled.
- Flask, routing and template rendering (app.py:7, app.py:100-122): the per-user routes only pass a user id and a file name to `get_games_list`.
- Reading `keys.json` and creating the game files directory at start-up (app.py:10-20).
- Real files, JSON serialisation and `os.path.getmtime`: the directory is a map, and a stored list reads back exactly as written. File read and write errors, which the source lets propagate, are not modelled.
- The floating-point clock `time.time()`: time is whole seconds, passed in as `now`.
- The race between two requests that both find a file stale and both rewrite it: concurrency is out of scope.
- The catalog fetched anew for every lookup: one catalog reply serves a whole computation. In the source the truthiness test and the value taken in one comprehension (app.py:55, app.py:69, app.py:75) are two requests that can see different replies, so a list can then hold None, or keep some ids and drop others that the same catalog would treat alike; the model does not capture this.
- Malformed records: every catalog entry carries `appid` and `name` and every owned-game record carries `appid`. In the source a record missing one of these keys raises KeyError (app.py:36-37, app.py:49-51, app.py:69, app.py:75), which the handler for request errors at app.py:39 does not catch, so the page fails; the model has no such failure.
- GameFiles.GameFileCache.GetGamesList / CommonGames: a rebuilt file is stamped with the clock reading of the freshness check, not the later time the write finished, so the model's file expires up to one recompute's duration earlier than the source's.
- The error message printed when the catalog request fails (app.py:40).
- Library.GetCommonGames: the order of the returned list is not stated, because Python's set iteration order is not specified.
