/**
 * The computations behind the pages: the names of one user's owned games
 * (the comprehension in `get_games_list`) and the names of the games all
 * three users own (`get_common_games`).
 *
 * One catalog reply serves every lookup of a computation, so the source's two
 * calls of `get_game_name` per id in each comprehension give the same value.
 */
module Library {
  import opened Wrappers
  import opened Steam
  import opened Sets

  /**
   * The name a comprehension keeps for `appid`: the lookup's result when it is
   * truthy. Python drops None and also the empty name.
   */
  function Shown(reply: CatalogReply, appid: int): (r: Option<string>)
    ensures r.Some? ==> r.value != "" && Resolve(reply, appid) == r
    ensures r.None? ==> Resolve(reply, appid) == None || Resolve(reply, appid) == Some("")
  {
    match Resolve(reply, appid)
    case Some(name) => if name != "" then Some(name) else None
    case None => None
  }

  /** The set of app ids of an owned-games list. */
  function IdsOf(games: seq<OwnedGame>): (r: set<int>)
    ensures forall i :: 0 <= i < |games| ==> games[i].appid in r
    ensures forall id :: id in r ==> exists i :: 0 <= i < |games| && games[i].appid == id
  {
    set g | g in games :: g.appid
  }

  /** The app ids all three users own. */
  function CommonIds(mine: seq<OwnedGame>, jess: seq<OwnedGame>, amber: seq<OwnedGame>): (r: set<int>)
    ensures r <= IdsOf(mine) && r <= IdsOf(jess) && r <= IdsOf(amber)
    ensures forall id :: id in IdsOf(mine) && id in IdsOf(jess) && id in IdsOf(amber) ==> id in r
  {
    IdsOf(mine) * IdsOf(jess) * IdsOf(amber)
  }

  // ---------------------------------------------------------------------
  // One user's list

  /**
   * The names of a user's owned games, in list order, each game whose name
   * does not resolve left out.
   */
  function UserGameNames(games: seq<OwnedGame>, reply: CatalogReply): (r: seq<string>)
    ensures |r| <= |games|
    ensures "" !in r
  {
    if games == [] then []
    else
      var rest := UserGameNames(games[1..], reply);
      match Shown(reply, games[0].appid)
      case Some(name) => [name] + rest
      case None => rest
  }

  /** Every name on the list is the resolved name of one of the user's games. */
  lemma {:induction false} UserGameNamesSound(games: seq<OwnedGame>, reply: CatalogReply, name: string)
    requires name in UserGameNames(games, reply)
    ensures exists i :: 0 <= i < |games| && Shown(reply, games[i].appid) == Some(name)
  {
    if Shown(reply, games[0].appid) != Some(name) {
      UserGameNamesSound(games[1..], reply, name);
      var j :| 0 <= j < |games[1..]| && Shown(reply, games[1..][j].appid) == Some(name);
      assert games[j + 1] == games[1..][j];
    }
  }

  /** The list is built game by game: the names of a concatenation are the concatenated names. */
  lemma {:induction false} UserGameNamesAppend(a: seq<OwnedGame>, b: seq<OwnedGame>, reply: CatalogReply)
    ensures UserGameNames(a + b, reply) == UserGameNames(a, reply) + UserGameNames(b, reply)
  {
    if a == [] {
      assert a + b == b;
    } else {
      assert (a + b)[0] == a[0];
      assert (a + b)[1..] == a[1..] + b;
      UserGameNamesAppend(a[1..], b, reply);
    }
  }

  /** Every owned game whose name resolves contributes that name. */
  lemma {:induction false} UserGameNamesComplete(games: seq<OwnedGame>, reply: CatalogReply, i: int)
    requires 0 <= i < |games| && Shown(reply, games[i].appid).Some?
    ensures Shown(reply, games[i].appid).value in UserGameNames(games, reply)
  {
    if i > 0 {
      UserGameNamesComplete(games[1..], reply, i - 1);
    }
  }

  /** When every game resolves, the list keeps each name at its game's position. */
  lemma {:induction false} UserGameNamesAllResolved(games: seq<OwnedGame>, reply: CatalogReply)
    requires forall i :: 0 <= i < |games| ==> Shown(reply, games[i].appid).Some?
    ensures |UserGameNames(games, reply)| == |games|
    ensures forall i :: 0 <= i < |games| ==> UserGameNames(games, reply)[i] == Shown(reply, games[i].appid).value
  {
    if games != [] {
      UserGameNamesAllResolved(games[1..], reply);
    }
  }

  // ---------------------------------------------------------------------
  // The three users' common games

  /** What one id of the intersection adds to the result: its name, or nothing. */
  function NameOf(reply: CatalogReply, appid: int): multiset<string>
  {
    match Shown(reply, appid)
    case Some(name) => multiset{name}
    case None => multiset{}
  }

  /**
   * The names the ids of `ids` resolve to, counted with repetition; the
   * order in which a set is walked does not matter (NameBagRemove).
   */
  ghost function NameBag(reply: CatalogReply, ids: set<int>): multiset<string>
    decreases ids
  {
    if ids == {} then multiset{}
    else
      var id := Pick(ids);
      NameBag(reply, ids - {id}) + NameOf(reply, id)
  }

  /** Any element of the set may be taken out first. */
  lemma {:induction false} NameBagRemove(reply: CatalogReply, ids: set<int>, x: int)
    requires x in ids
    ensures NameBag(reply, ids) == NameBag(reply, ids - {x}) + NameOf(reply, x)
    decreases ids
  {
    var y := Pick(ids);
    if y != x {
      NameBagRemove(reply, ids - {y}, x);
      NameBagRemove(reply, ids - {x}, y);
      assert ids - {y} - {x} == ids - {x} - {y};
    }
  }

  /** The ids of `ids` that resolve to `name`. */
  ghost function IdsNamed(reply: CatalogReply, ids: set<int>, name: string): set<int>
  {
    set id | id in ids && Shown(reply, id) == Some(name)
  }

  /** Taking `x` out of the set takes it out of the ids named `name`, if it was there. */
  lemma IdsNamedRemove(reply: CatalogReply, ids: set<int>, x: int, name: string)
    requires x in ids
    ensures |IdsNamed(reply, ids, name)| == |IdsNamed(reply, ids - {x}, name)| + NameOf(reply, x)[name]
  {
    var rest := IdsNamed(reply, ids - {x}, name);
    assert x !in rest;
    if Shown(reply, x) == Some(name) {
      assert IdsNamed(reply, ids, name) == rest + {x};
    } else {
      assert IdsNamed(reply, ids, name) == rest;
    }
  }

  /** Each name occurs once per id that resolves to it. */
  lemma {:induction false} NameBagCount(reply: CatalogReply, ids: set<int>, name: string)
    ensures NameBag(reply, ids)[name] == |IdsNamed(reply, ids, name)|
    decreases ids
  {
    if ids == {} {
      assert IdsNamed(reply, ids, name) == {};
    } else {
      var x := Pick(ids);
      NameBagRemove(reply, ids, x);
      NameBagCount(reply, ids - {x}, name);
      IdsNamedRemove(reply, ids, x, name);
    }
  }

  /**
   * A name is in the result exactly when some id of the set resolves to it;
   * ids that do not resolve leave nothing behind.
   */
  lemma NameBagMembers(reply: CatalogReply, ids: set<int>, name: string)
    ensures name in NameBag(reply, ids) <==> exists id :: id in ids && Shown(reply, id) == Some(name)
  {
    NameBagCount(reply, ids, name);
    var named := IdsNamed(reply, ids, name);
    if named != {} {
      var id :| id in named;
    }
  }

  /** The result has at most one name per id. */
  lemma {:induction false} NameBagSize(reply: CatalogReply, ids: set<int>)
    ensures |NameBag(reply, ids)| <= |ids|
    decreases ids
  {
    if ids != {} {
      var x := Pick(ids);
      NameBagRemove(reply, ids, x);
      NameBagSize(reply, ids - {x});
    }
  }

  /** A list has at most as many distinct ids as records. */
  lemma {:induction false} IdsOfSize(games: seq<OwnedGame>)
    ensures |IdsOf(games)| <= |games|
  {
    if games != [] {
      IdsOfSize(games[1..]);
      assert IdsOf(games) == IdsOf(games[1..]) + {games[0].appid};
    }
  }

  /**
   * The common games number at most the common ids, hence at most the ids of
   * each single user, hence at most each user's list length.
   */
  lemma CommonNamesBound(reply: CatalogReply, mine: seq<OwnedGame>, jess: seq<OwnedGame>, amber: seq<OwnedGame>)
    ensures |NameBag(reply, CommonIds(mine, jess, amber))| <= |CommonIds(mine, jess, amber)|
    ensures |CommonIds(mine, jess, amber)| <= |IdsOf(mine)| <= |mine|
    ensures |CommonIds(mine, jess, amber)| <= |IdsOf(jess)| <= |jess|
    ensures |CommonIds(mine, jess, amber)| <= |IdsOf(amber)| <= |amber|
  {
    var common := CommonIds(mine, jess, amber);
    NameBagSize(reply, common);
    SubsetSize(common, IdsOf(mine));
    SubsetSize(common, IdsOf(jess));
    SubsetSize(common, IdsOf(amber));
    IdsOfSize(mine);
    IdsOfSize(jess);
    IdsOfSize(amber);
  }

  /**
   * A list whose names, counted with repetition, are those of `ids` holds
   * exactly the names some id of `ids` resolves to, and is no longer than `ids`.
   */
  lemma ListedNames(reply: CatalogReply, ids: set<int>, names: seq<string>)
    requires multiset(names) == NameBag(reply, ids)
    ensures forall name :: name in names <==> exists id :: id in ids && Shown(reply, id) == Some(name)
    ensures |names| <= |ids|
  {
    forall name
      ensures name in names <==> exists id :: id in ids && Shown(reply, id) == Some(name)
    {
      assert name in names <==> name in multiset(names);
      NameBagMembers(reply, ids, name);
    }
    NameBagSize(reply, ids);
    assert |names| == |multiset(names)|;
  }

  /**
   * `get_common_games`: intersect the three users' id sets and collect the
   * resolved name of each common id, walking the set in an order the caller
   * cannot rely on (the choice of `id` below).
   */
  method GetCommonGames(mine: OwnedGamesReply, jess: OwnedGamesReply, amber: OwnedGamesReply, reply: CatalogReply)
    returns (names: seq<string>)
    ensures multiset(names) == NameBag(reply, CommonIds(OwnedGames(mine), OwnedGames(jess), OwnedGames(amber)))
    ensures forall name :: name in names <==>
      exists id :: id in CommonIds(OwnedGames(mine), OwnedGames(jess), OwnedGames(amber)) && Shown(reply, id) == Some(name)
    ensures |names| <= |CommonIds(OwnedGames(mine), OwnedGames(jess), OwnedGames(amber))|
  {
    var common := CommonIds(OwnedGames(mine), OwnedGames(jess), OwnedGames(amber));
    names := [];
    var left := common;
    while left != {}
      invariant left <= common
      invariant multiset(names) + NameBag(reply, left) == NameBag(reply, common)
      decreases left
    {
      var id := Choose(left);
      NameBagRemove(reply, left, id);
      var name := GetGameName(reply, id);
      if name.Some? && name.value != "" {
        names := names + [name.value];
      }
      left := left - {id};
    }
    ListedNames(reply, common, names);
  }

  /**
   * Users owning {1, 2, 3}, {2, 3, 4} and {2, 3, 5}, with a catalog naming 2
   * and 3, share exactly those two games.
   */
  lemma ThreeUsersExample()
    ensures NameBag(Fetched(Some([App(2, "Portal"), App(3, "Half-Life")])),
                    CommonIds([OwnedGame(1), OwnedGame(2), OwnedGame(3)],
                              [OwnedGame(2), OwnedGame(3), OwnedGame(4)],
                              [OwnedGame(2), OwnedGame(3), OwnedGame(5)]))
            == multiset{"Portal", "Half-Life"}
  {
    var reply := Fetched(Some([App(2, "Portal"), App(3, "Half-Life")]));
    IdsOfThree(1, 2, 3);
    IdsOfThree(2, 3, 4);
    IdsOfThree(2, 3, 5);
    assert {1, 2, 3} * {2, 3, 4} * {2, 3, 5} == {2, 3};
    ExampleCatalog();
    NameBagOfTwo(reply, 2, 3);
  }

  lemma ExampleCatalog()
    ensures Shown(Fetched(Some([App(2, "Portal"), App(3, "Half-Life")])), 2) == Some("Portal")
    ensures Shown(Fetched(Some([App(2, "Portal"), App(3, "Half-Life")])), 3) == Some("Half-Life")
  {
  }

  lemma NameBagOfTwo(reply: CatalogReply, a: int, b: int)
    requires a != b
    ensures NameBag(reply, {a, b}) == NameOf(reply, a) + NameOf(reply, b)
  {
    NameBagRemove(reply, {a, b}, a);
    assert {a, b} - {a} == {b};
    NameBagRemove(reply, {b}, b);
    assert {b} - {b} == {};
  }

  lemma IdsOfThree(a: int, b: int, c: int)
    ensures IdsOf([OwnedGame(a), OwnedGame(b), OwnedGame(c)]) == {a, b, c}
  {
  }
}
