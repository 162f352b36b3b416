/**
 * The 24-hour file cache in front of each page (`get_games_list` and the
 * `common_games` route). The directory of JSON files is a map from file name
 * to the stored list of names and the file's modification time, in whole
 * seconds; the clock reading is a parameter.
 */
module GameFiles {
  import opened Steam
  import opened Library

  /** How long a stored list is served, in seconds. */
  const TTL: int := 86400

  /** The file holding the three users' common games. */
  const COMMON_GAMES_FILE: string := "common_games.json"

  /** One cache file: the names it holds and when it was last written. */
  datatype Entry = Entry(names: seq<string>, mtime: int)

  type Store = map<string, Entry>

  /**
   * A file is served from the store when it exists and is less than a day old
   * at `now`. A modification time ahead of the clock gives a negative age,
   * which counts as current.
   */
  predicate IsCurrent(files: Store, filename: string, now: int)
    ensures IsCurrent(files, filename, now) ==> filename in files
    ensures filename in files && files[filename].mtime >= now ==> IsCurrent(files, filename, now)
    ensures filename in files && now - files[filename].mtime >= TTL ==> !IsCurrent(files, filename, now)
  {
    filename in files && now - files[filename].mtime < TTL
  }

  /** The store after a recompute at `now` wrote `names` to `filename`. */
  function Written(files: Store, filename: string, names: seq<string>, now: int): (r: Store)
    ensures filename in r && r[filename] == Entry(names, now)
    ensures forall f :: f != filename ==> (f in r <==> f in files)
    ensures forall f :: f in files && f != filename ==> r[f] == files[f]
  {
    files[filename := Entry(names, now)]
  }

  /**
   * A list written at `written` is served unchanged by any later read at
   * `now` within a day of it.
   */
  lemma WrittenIsServed(files: Store, filename: string, names: seq<string>, written: int, now: int)
    requires now - written < TTL
    ensures IsCurrent(Written(files, filename, names, written), filename, now)
    ensures Written(files, filename, names, written)[filename].names == names
  {
  }

  /** A list written at `written` is recomputed by any read a day or more later. */
  lemma WrittenExpires(files: Store, filename: string, names: seq<string>, written: int, now: int)
    requires now - written >= TTL
    ensures !IsCurrent(Written(files, filename, names, written), filename, now)
  {
  }

  /** The game files directory of a running server. */
  class GameFileCache {
    var files: Store

    constructor (files: Store)
      ensures this.files == files
    {
      this.files := files;
    }

    /** `json.dump` to a file: the whole entry is replaced and stamped with `now`. */
    method Write(filename: string, names: seq<string>, now: int)
      modifies this
      ensures files == Written(old(files), filename, names, now)
    {
      files := files[filename := Entry(names, now)];
    }

    /**
     * `get_games_list`: serve the user's list from `filename` when it is
     * current; otherwise rebuild it from the owned-games reply and the
     * catalog, store it and return it.
     */
    method GetGamesList(now: int, filename: string, owned: OwnedGamesReply, catalog: CatalogReply)
      returns (names: seq<string>)
      modifies this
      ensures old(IsCurrent(files, filename, now)) ==>
        names == old(files)[filename].names && files == old(files)
      ensures !old(IsCurrent(files, filename, now)) ==>
        names == UserGameNames(OwnedGames(owned), catalog) && files == Written(old(files), filename, names, now)
    {
      if filename in files {
        var fileModTime := files[filename].mtime;
        if now - fileModTime < TTL {
          return files[filename].names;
        } else {
          names := UserGameNames(OwnedGames(owned), catalog);
          Write(filename, names, now);
        }
      } else {
        names := UserGameNames(OwnedGames(owned), catalog);
        Write(filename, names, now);
      }
    }

    /**
     * The `common_games` route: serve `common_games.json` when it is current;
     * otherwise compute the three users' common games, store and return them.
     */
    method CommonGames(now: int, mine: OwnedGamesReply, jess: OwnedGamesReply, amber: OwnedGamesReply, catalog: CatalogReply)
      returns (names: seq<string>)
      modifies this
      ensures old(IsCurrent(files, COMMON_GAMES_FILE, now)) ==>
        names == old(files)[COMMON_GAMES_FILE].names && files == old(files)
      ensures !old(IsCurrent(files, COMMON_GAMES_FILE, now)) ==>
        && multiset(names) == NameBag(catalog, CommonIds(OwnedGames(mine), OwnedGames(jess), OwnedGames(amber)))
        && files == Written(old(files), COMMON_GAMES_FILE, names, now)
    {
      if COMMON_GAMES_FILE in files {
        var fileModTime := files[COMMON_GAMES_FILE].mtime;
        if now - fileModTime < TTL {
          names := files[COMMON_GAMES_FILE].names;
        } else {
          names := GetCommonGames(mine, jess, amber, catalog);
          Write(COMMON_GAMES_FILE, names, now);
        }
      } else {
        names := GetCommonGames(mine, jess, amber, catalog);
        Write(COMMON_GAMES_FILE, names, now);
      }
    }
  }

  /**
   * Two requests for one user's page: a rebuild at `t` followed by a read at
   * `t2`, less than a day later, serves the rebuilt list without rebuilding.
   */
  method RebuiltListIsServed(cache: GameFileCache, filename: string, t: int, t2: int,
                             owned: OwnedGamesReply, catalog: CatalogReply,
                             owned2: OwnedGamesReply, catalog2: CatalogReply)
    returns (first: seq<string>, second: seq<string>)
    requires !IsCurrent(cache.files, filename, t)
    requires t2 - t < TTL
    modifies cache
    ensures first == UserGameNames(OwnedGames(owned), catalog)
    ensures second == first
    ensures cache.files == Written(old(cache.files), filename, first, t)
  {
    first := cache.GetGamesList(t, filename, owned, catalog);
    WrittenIsServed(old(cache.files), filename, first, t, t2);
    second := cache.GetGamesList(t2, filename, owned2, catalog2);
  }
}
