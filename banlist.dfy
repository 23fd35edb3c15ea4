/** The renderer's ban list (`bannedPlayers`): rows are added one at a time as
    the `banlist` reply arrives, never twice for the same SteamID; unbanning
    filters out that SteamID; a refresh empties the list. */
module BanList {

  /** One row of the server's ban list. */
  datatype BannedPlayer = BannedPlayer(steamId: string, name: string, reason: string)

  /** `list.some(p => p.steamId === id)`. */
  predicate Banned(list: seq<BannedPlayer>, id: string) {
    exists i | 0 <= i < |list| :: list[i].steamId == id
  }

  /** No SteamID appears twice. */
  predicate UniqueIds(list: seq<BannedPlayer>) {
    forall i, j | 0 <= i < j < |list| :: list[i].steamId != list[j].steamId
  }

  /** The update the log handler applies for a ban row: keep the list when the
      SteamID is already there, otherwise append the row. */
  function AddBan(list: seq<BannedPlayer>, row: BannedPlayer): (r: seq<BannedPlayer>)
    ensures Banned(r, row.steamId)
    ensures forall id :: Banned(r, id) <==> Banned(list, id) || id == row.steamId
    ensures |r| == if Banned(list, row.steamId) then |list| else |list| + 1
    ensures r[..|list|] == list
    ensures !Banned(list, row.steamId) ==> r[|list|] == row
    ensures UniqueIds(list) ==> UniqueIds(r)
  {
    if Banned(list, row.steamId) then list
    else
      var r := list + [row];
      assert r[|list|].steamId == row.steamId;
      assert forall id :: Banned(list, id) ==> Banned(r, id) by {
        forall id | Banned(list, id) ensures Banned(r, id) {
          var i :| 0 <= i < |list| && list[i].steamId == id;
          assert r[i] == list[i];
        }
      }
      r
  }

  /** `list.filter(p => p.steamId !== id)`. */
  function Unban(list: seq<BannedPlayer>, id: string): (r: seq<BannedPlayer>)
    ensures |r| <= |list|
    ensures forall p :: p in r <==> p in list && p.steamId != id
    ensures !Banned(r, id)
  {
    if list == [] then []
    else if list[0].steamId == id then Unban(list[1..], id)
    else [list[0]] + Unban(list[1..], id)
  }

  /** Unbanning an absent SteamID leaves the list as it is. */
  lemma {:induction false} UnbanAbsent(list: seq<BannedPlayer>, id: string)
    requires !Banned(list, id)
    ensures Unban(list, id) == list
  {
    if list != [] {
      assert list[0].steamId != id;
      assert !Banned(list[1..], id);
      UnbanAbsent(list[1..], id);
    }
  }

  /** In a list without repeated SteamIDs, unbanning removes exactly the one
      entry with that SteamID and keeps the others in their order. */
  lemma {:induction false} UnbanRemovesOne(list: seq<BannedPlayer>, k: nat)
    requires UniqueIds(list) && k < |list|
    ensures Unban(list, list[k].steamId) == list[..k] + list[k + 1..]
  {
    var id := list[k].steamId;
    if k == 0 {
      assert !Banned(list[1..], id);
      UnbanAbsent(list[1..], id);
    } else {
      var tail := list[1..];
      assert list[0].steamId != id;
      assert tail[k - 1] == list[k];
      assert UniqueIds(tail) by {
        forall i, j | 0 <= i < j < |tail| ensures tail[i].steamId != tail[j].steamId {
          assert tail[i] == list[i + 1] && tail[j] == list[j + 1];
        }
      }
      UnbanRemovesOne(tail, k - 1);
      assert Unban(list, id) == [list[0]] + Unban(tail, id);
      assert tail[..k - 1] == list[1..k] && tail[k..] == list[k + 1..];
      assert list[..k] == [list[0]] + list[1..k];
    }
  }

  /** Unbanning keeps SteamIDs unique. */
  lemma {:induction false} UnbanKeepsUnique(list: seq<BannedPlayer>, id: string)
    requires UniqueIds(list)
    ensures UniqueIds(Unban(list, id))
  {
    if list != [] {
      assert UniqueIds(list[1..]) by {
        forall i, j | 0 <= i < j < |list[1..]| ensures list[1..][i].steamId != list[1..][j].steamId {
          assert list[1..][i] == list[i + 1] && list[1..][j] == list[j + 1];
        }
      }
      UnbanKeepsUnique(list[1..], id);
      if list[0].steamId != id {
        var rest := Unban(list[1..], id);
        forall p | p in rest ensures p.steamId != list[0].steamId {
          var j :| 0 <= j < |list[1..]| && list[1..][j] == p;
          assert list[j + 1] == p;
        }
        var r := [list[0]] + rest;
        forall i, j | 0 <= i < j < |r| ensures r[i].steamId != r[j].steamId {
          if i == 0 {
            assert r[j] == rest[j - 1] && rest[j - 1] in rest;
          } else {
            assert r[i] == rest[i - 1] && r[j] == rest[j - 1];
          }
        }
      }
    }
  }
}
