/**
 * Data returned by the game platform's web API, and the catalog name lookup
 * (`get_game_name` in app.py).
 *
 * The HTTP requests themselves are not modelled: each reply is a parameter.
 */
module Steam {
  import opened Wrappers

  /** One entry of the platform's full app catalog. */
  datatype App = App(appid: int, name: string)

  /** One record of a user's owned-games list; only the app id is used. */
  datatype OwnedGame = OwnedGame(appid: int)

  /**
   * The outcome of the catalog request. `FetchFailed` is a request that raised
   * (an HTTP error status or a transport error); `Fetched(None)` is a body
   * without the `applist.apps` field.
   */
  datatype CatalogReply = FetchFailed | Fetched(apps: Option<seq<App>>)

  /** The body of an owned-games reply; `None` when `response.games` is absent. */
  datatype OwnedGamesReply = OwnedGamesReply(games: Option<seq<OwnedGame>>)

  /** The catalog the lookup scans: a failed fetch or a missing field is empty. */
  function AppList(reply: CatalogReply): (r: seq<App>)
    ensures reply.FetchFailed? || reply.apps.None? ==> r == []
    ensures reply.Fetched? && reply.apps.Some? ==> r == reply.apps.value
  {
    match reply
    case FetchFailed => []
    case Fetched(None) => []
    case Fetched(Some(apps)) => apps
  }

  /** A user's owned games: a missing field is the empty list. */
  function OwnedGames(reply: OwnedGamesReply): (r: seq<OwnedGame>)
    ensures reply.games.None? ==> r == []
    ensures reply.games.Some? ==> r == reply.games.value
  {
    match reply.games
    case None => []
    case Some(games) => games
  }

  /**
   * The name of the first catalog entry whose app id is `appid`, or None when
   * no entry has that id.
   */
  function FindName(apps: seq<App>, appid: int): (r: Option<string>)
    ensures r.None? <==> forall i :: 0 <= i < |apps| ==> apps[i].appid != appid
    ensures r.Some? ==> exists i :: 0 <= i < |apps| && apps[i] == App(appid, r.value)
  {
    if apps == [] then None
    else if apps[0].appid == appid then Some(apps[0].name)
    else
      var r := FindName(apps[1..], appid);
      assert r.Some? ==> exists i :: 1 <= i < |apps| && apps[i] == App(appid, r.value) by {
        if r.Some? {
          var j :| 0 <= j < |apps[1..]| && apps[1..][j] == App(appid, r.value);
          assert apps[j + 1] == App(appid, r.value);
        }
      }
      r
  }

  /** What one call of `get_game_name(appid)` returns against the catalog `reply`. */
  function Resolve(reply: CatalogReply, appid: int): (r: Option<string>)
    ensures reply.FetchFailed? ==> r == None
    ensures r.None? <==> forall i :: 0 <= i < |AppList(reply)| ==> AppList(reply)[i].appid != appid
  {
    FindName(AppList(reply), appid)
  }

  /**
   * The entry at `k` is the first with app id `appid`, so its name is the one
   * found, whatever entries with the same id come after it.
   */
  lemma {:induction false} FindNameIsFirstMatch(apps: seq<App>, appid: int, k: int)
    requires 0 <= k < |apps| && apps[k].appid == appid
    requires forall j :: 0 <= j < k ==> apps[j].appid != appid
    ensures FindName(apps, appid) == Some(apps[k].name)
  {
    if k > 0 {
      FindNameIsFirstMatch(apps[1..], appid, k - 1);
    }
  }

  /**
   * `get_game_name`: fetch the catalog, scan it front to back and return the
   * name of the first entry with the requested id; None when the scan ends or
   * when the fetch raised.
   */
  method GetGameName(reply: CatalogReply, appid: int) returns (name: Option<string>)
    ensures name == Resolve(reply, appid)
    ensures reply.FetchFailed? ==> name == None
    ensures name.Some? <==> exists i :: 0 <= i < |AppList(reply)| && AppList(reply)[i].appid == appid
  {
    if reply.FetchFailed? {
      return None;
    }
    var apps := AppList(reply);
    var i := 0;
    while i < |apps|
      invariant 0 <= i <= |apps|
      invariant forall j :: 0 <= j < i ==> apps[j].appid != appid
    {
      if apps[i].appid == appid {
        FindNameIsFirstMatch(apps, appid, i);
        return Some(apps[i].name);
      }
      i := i + 1;
    }
    return None;
  }
}
