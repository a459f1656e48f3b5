/** The plugin side of the Music Assistant add-on
    (plugin.audio.musicassistant/addon.py): the server URL setting, paging
    of library listings, the hidden-player setting, the choice of player
    candidates, queue moves and the transfer/sync guard. */
module MaAddon {
  import opened Wrappers
  import opened Strings

  // ---------------------------------------------------------------- connection

  /** `get_client`'s server URL: no client without one, and `http://` in
      front of a URL that does not start with `http`. */
  function ServerUrl(setting: string): (r: Option<string>)
    ensures r.None? <==> setting == []
    ensures r.Some? ==> StartsWith(r.value, "http") && EndsWith(r.value, setting)
    ensures r.Some? && StartsWith(setting, "http") ==> r.value == setting
  {
    if setting == [] then None
    else if StartsWith(setting, "http") then Some(setting)
    else
      var u := "http://" + setting;
      assert u[..4] == "http";
      assert u[|u| - |setting|..] == setting;
      Some(u)
  }

  /** Normalising a normalised URL changes nothing. */
  lemma ServerUrlIdempotent(setting: string)
    requires setting != []
    ensures ServerUrl(ServerUrl(setting).value) == ServerUrl(setting)
  {
  }

  // ---------------------------------------------------------------- paging

  /** The offset of the "Load More" entry under a page of `count` items
      fetched at `offset`: present exactly when the page is full. */
  function LoadMore(count: int, offset: int, limit: int): (r: Option<int>)
    ensures r.Some? <==> count >= limit
    ensures r.Some? ==> r.value == offset + limit
  {
    if count >= limit then Some(offset + limit) else None
  }

  /** How many items the server returns for a page of a library of `total`
      items. */
  function PageSize(total: nat, offset: nat, limit: nat): nat
  {
    if offset >= total then 0 else if total - offset < limit then total - offset else limit
  }

  /** The items shown from the page at `offset` on, following "Load More"
      while it is offered. */
  function ItemsShown(total: nat, offset: nat, limit: nat): nat
    requires limit > 0
    decreases total + limit - offset
  {
    var count := PageSize(total, offset, limit);
    match LoadMore(count, offset, limit)
    case None => count
    case Some(next) => if offset > total then count else count + ItemsShown(total, next, limit)
  }

  /** Following "Load More" from any offset inside the library shows every
      remaining item exactly once: a full page always offers the next one
      and the first short page ends the listing. */
  lemma {:induction false} LoadMoreShowsEverything(total: nat, offset: nat, limit: nat)
    requires limit > 0 && offset <= total
    ensures ItemsShown(total, offset, limit) == total - offset
    decreases total - offset
  {
    var count := PageSize(total, offset, limit);
    if count >= limit {
      LoadMoreShowsEverything(total, offset + limit, limit);
    }
  }

  // ---------------------------------------------------------------- hidden players

  /** The hidden-player setting read as a list. */
  function HiddenList(setting: string): (r: seq<string>)
    ensures forall k :: 0 <= k < |r| ==> ListItem(r[k])
  {
    SplitListItems(setting);
    SplitList(setting, ',')
  }

  /** The index of the first occurrence of `x`. */
  function IndexOf(xs: seq<string>, x: string): (i: nat)
    requires x in xs
    ensures i < |xs| && xs[i] == x
    ensures forall j :: 0 <= j < i ==> xs[j] != x
  {
    if xs[0] == x then 0 else 1 + IndexOf(xs[1..], x)
  }

  /** The list without the first occurrence of `x` (`list.remove`). */
  function RemoveFirst(xs: seq<string>, x: string): (r: seq<string>)
    requires x in xs
    ensures multiset(r) == multiset(xs) - multiset{x}
    ensures |r| == |xs| - 1
    ensures forall j :: 0 <= j < IndexOf(xs, x) ==> r[j] == xs[j]
    ensures forall j :: IndexOf(xs, x) <= j < |r| ==> r[j] == xs[j + 1]
  {
    var i := IndexOf(xs, x);
    assert xs == xs[..i] + [x] + xs[i + 1..];
    xs[..i] + xs[i + 1..]
  }

  /** The setting after `hide_player`. */
  function AfterHide(setting: string, playerId: string): (r: string)
    ensures playerId == [] || playerId in HiddenList(setting) ==> r == setting
    ensures playerId != [] && playerId !in HiddenList(setting) ==> r == Join(HiddenList(setting) + [playerId], ",")
  {
    if playerId != [] && playerId !in HiddenList(setting) then Join(HiddenList(setting) + [playerId], ",")
    else setting
  }

  /** The setting after `unhide_player`. */
  function AfterUnhide(setting: string, playerId: string): (r: string)
    ensures playerId == [] || playerId !in HiddenList(setting) ==> r == setting
    ensures playerId != [] && playerId in HiddenList(setting) ==> r == Join(RemoveFirst(HiddenList(setting), playerId), ",")
  {
    if playerId != [] && playerId in HiddenList(setting) then Join(RemoveFirst(HiddenList(setting), playerId), ",")
    else setting
  }

  /** The `hidden_players` add-on setting. */
  class HiddenPlayersSetting {
    var text: string

    constructor (text: string)
      ensures this.text == text
    {
      this.text := text;
    }

    /** `hide_player`: an id not yet in the list is appended and the list
        written back joined with commas; an empty or already hidden id
        changes nothing. */
    method HidePlayer(playerId: string)
      modifies this
      ensures text == AfterHide(old(text), playerId)
      ensures playerId == [] || playerId in HiddenList(old(text)) ==> text == old(text)
    {
      if playerId == [] {
        return;
      }
      var hiddenList := HiddenList(text);
      if playerId !in hiddenList {
        hiddenList := hiddenList + [playerId];
        text := Join(hiddenList, ",");
      }
    }

    /** `unhide_player`: a hidden id is removed (its first occurrence) and
        the list written back; otherwise nothing changes. */
    method UnhidePlayer(playerId: string)
      modifies this
      ensures text == AfterUnhide(old(text), playerId)
      ensures playerId == [] || playerId !in HiddenList(old(text)) ==> text == old(text)
    {
      if playerId == [] {
        return;
      }
      var hiddenList := HiddenList(text);
      if playerId in hiddenList {
        hiddenList := RemoveFirst(hiddenList, playerId);
        text := Join(hiddenList, ",");
      }
    }

    /** `unhide_all_players`: afterwards nothing is hidden. */
    method UnhideAllPlayers()
      modifies this
      ensures HiddenList(old(text)) != [] ==> text == []
      ensures HiddenList(old(text)) == [] ==> text == old(text)
      ensures HiddenList(text) == []
    {
      if HiddenList(text) != [] {
        text := "";
        assert Split([], ',') == [[]];
      }
    }
  }

  /** Hiding a player id (a non-blank id without commas or surrounding
      blanks) that is not hidden adds exactly it at the end of the list. */
  lemma HideReadBack(setting: string, playerId: string)
    requires ListItem(playerId) && playerId !in HiddenList(setting)
    ensures HiddenList(AfterHide(setting, playerId)) == HiddenList(setting) + [playerId]
  {
    var xs := HiddenList(setting) + [playerId];
    assert forall k :: 0 <= k < |xs| ==> ListItem(xs[k]);
    SplitListJoinComma(xs);
  }

  /** After hiding, the player is hidden; hiding again changes nothing. */
  lemma HideIdempotent(setting: string, playerId: string)
    requires ListItem(playerId)
    ensures playerId in HiddenList(AfterHide(setting, playerId))
    ensures AfterHide(AfterHide(setting, playerId), playerId) == AfterHide(setting, playerId)
  {
    if playerId !in HiddenList(setting) {
      HideReadBack(setting, playerId);
      assert HiddenList(AfterHide(setting, playerId))[|HiddenList(setting)|] == playerId;
    }
  }

  /** Unhiding removes one occurrence of the id from the list; when the
      list holds it once, the player is no longer hidden. */
  lemma UnhideReadBack(setting: string, playerId: string)
    requires playerId != [] && playerId in HiddenList(setting)
    ensures HiddenList(AfterUnhide(setting, playerId)) == RemoveFirst(HiddenList(setting), playerId)
    ensures multiset(HiddenList(setting))[playerId] == 1 ==> playerId !in HiddenList(AfterUnhide(setting, playerId))
  {
    var xs := RemoveFirst(HiddenList(setting), playerId);
    RemoveFirstItems(HiddenList(setting), playerId);
    SplitListJoinComma(xs);
    if multiset(HiddenList(setting))[playerId] == 1 {
      assert multiset(xs)[playerId] == 0;
    }
  }

  /** Removing an element keeps every other element a list item. */
  lemma RemoveFirstItems(xs: seq<string>, x: string)
    requires x in xs && forall k :: 0 <= k < |xs| ==> ListItem(xs[k])
    ensures forall k :: 0 <= k < |RemoveFirst(xs, x)| ==> ListItem(RemoveFirst(xs, x)[k])
  {
    var i := IndexOf(xs, x);
    var r := RemoveFirst(xs, x);
    forall k | 0 <= k < |r|
      ensures ListItem(r[k])
    {
      if k < i {
        assert r[k] == xs[k];
      } else {
        assert r[k] == xs[i + 1..][k - i];
      }
    }
  }

  /** Hiding a player and then unhiding it leaves the same hidden list. */
  lemma HideThenUnhide(setting: string, playerId: string)
    requires ListItem(playerId) && playerId !in HiddenList(setting)
    ensures HiddenList(AfterUnhide(AfterHide(setting, playerId), playerId)) == HiddenList(setting)
  {
    var xs := HiddenList(setting);
    HideReadBack(setting, playerId);
    assert (xs + [playerId])[|xs|] == playerId;
    UnhideReadBack(AfterHide(setting, playerId), playerId);
    RemoveFirstLast(xs, playerId);
  }

  /** Removing the first occurrence of an element that occurs only at the
      end removes the end. */
  lemma RemoveFirstLast(xs: seq<string>, x: string)
    requires x !in xs
    ensures RemoveFirst(xs + [x], x) == xs
  {
    assert IndexOf(xs + [x], x) == |xs|;
    assert (xs + [x])[..|xs|] == xs;
  }

  // ---------------------------------------------------------------- player candidates

  /** A player as the server lists it; `playerId` is `None` when the key is
      missing. */
  datatype Player = Player(playerId: Option<string>, available: bool)

  predicate NotHidden(p: Player, hidden: seq<string>)
  {
    p.playerId.None? || p.playerId.value !in hidden
  }

  /** `[p for p in players if p.get('player_id') not in hidden_list]`. */
  function VisiblePlayers(players: seq<Player>, hidden: seq<string>): (r: seq<Player>)
    ensures forall p :: p in r <==> p in players && NotHidden(p, hidden)
  {
    if players == [] then []
    else
      var rest := VisiblePlayers(players[1..], hidden);
      HeadTail(players);
      if NotHidden(players[0], hidden) then [players[0]] + rest else rest
  }

  /** The same list restricted to available players. */
  function AvailableVisiblePlayers(players: seq<Player>, hidden: seq<string>): (r: seq<Player>)
    ensures forall p :: p in r <==> p in players && p.available && NotHidden(p, hidden)
  {
    if players == [] then []
    else
      var rest := AvailableVisiblePlayers(players[1..], hidden);
      HeadTail(players);
      if players[0].available && NotHidden(players[0], hidden) then [players[0]] + rest else rest
  }

  /** The players offered for selection: the available, non-hidden ones,
      or, when there are none, every non-hidden one. No hidden player is
      ever offered; there is a candidate exactly when some player is not
      hidden; and when some non-hidden player is available, every candidate
      is available. */
  function PlayerCandidates(players: seq<Player>, hidden: seq<string>): (r: seq<Player>)
    ensures forall p :: p in r ==> p in players && NotHidden(p, hidden)
    ensures r == [] <==> forall p :: p in players ==> !NotHidden(p, hidden)
    ensures (exists p :: p in players && p.available && NotHidden(p, hidden)) ==> forall p :: p in r ==> p.available
    ensures forall p :: p in players && p.available && NotHidden(p, hidden) ==> p in r
    ensures (forall p :: p in players && NotHidden(p, hidden) ==> !p.available) ==>
              forall p :: p in players && NotHidden(p, hidden) ==> p in r
  {
    var available := AvailableVisiblePlayers(players, hidden);
    if available != [] then
      assert available[0] in available;
      available
    else
      var visible := VisiblePlayers(players, hidden);
      assert visible != [] ==> visible[0] in visible;
      visible
  }

  // ---------------------------------------------------------------- queue moves

  /** `int(params['index'])`, or 0 when it is not a number. */
  function IndexParam(s: string): (r: int)
    ensures IsDigits(s) ==> r == DigitsValue(s)
    ensures ParseInt(s).Some? ==> r == ParseInt(s).value
    ensures ParseInt(s).None? ==> r == 0
  {
    match ParseInt(s)
    case Some(i) => i
    case None => 0
  }

  /** `player_queues/move_item` as the server applies it: the item leaves
      its place and is inserted at the target index of what remains. */
  function MoveItem<T>(q: seq<T>, from: nat, to: nat): (r: seq<T>)
    requires from < |q| && to < |q|
    ensures |r| == |q| && r[to] == q[from]
    ensures multiset(r) == multiset(q)
  {
    var rest := q[..from] + q[from + 1..];
    assert q == q[..from] + [q[from]] + q[from + 1..];
    assert multiset(rest) + multiset{q[from]} == multiset(q);
    assert rest == rest[..to] + rest[to..];
    assert multiset(rest[..to] + [q[from]] + rest[to..]) == multiset(rest[..to]) + multiset{q[from]} + multiset(rest[to..]);
    rest[..to] + [q[from]] + rest[to..]
  }

  /** `queue_move_up`'s target: none without a queue or for the first item
      (index 0 or below), otherwise the index above. */
  function MoveUpTarget(queueId: string, index: int): (r: Option<nat>)
    ensures r.Some? <==> queueId != [] && index > 0
    ensures r.Some? ==> r.value + 1 == index
  {
    if queueId == [] || index <= 0 then None else Some(index - 1)
  }

  /** Moving up swaps the item with the one above it. */
  lemma MoveUpSwaps<T>(q: seq<T>, queueId: string, index: int)
    requires MoveUpTarget(queueId, index).Some? && index < |q|
    ensures MoveItem(q, index, MoveUpTarget(queueId, index).value) == q[..index - 1] + [q[index], q[index - 1]] + q[index + 1..]
  {
    var r := MoveItem(q, index, index - 1);
    var s := q[..index - 1] + [q[index], q[index - 1]] + q[index + 1..];
    var rest := q[..index] + q[index + 1..];
    assert |r| == |s|;
    forall k | 0 <= k < |r|
      ensures r[k] == s[k]
    {
      if k < index - 1 {
        assert r[k] == rest[k] == q[k];
      } else if k == index {
        assert r[k] == rest[k - 1] == q[index - 1];
      } else if k > index {
        assert r[k] == rest[k - 1] == q[k];
      }
    }
  }

  /** What `queue_play_next` does. */
  datatype PlayNext = NoMove | MoveTo(target: int)

  /** `queue_play_next`: nothing without a queue or an item, nothing for
      the item already after the current one; an item before that point
      goes to the current index (the removal shifts the current track up),
      a later one right after the current index. `current` is the queue's
      `current_index`, 0 when missing. */
  function PlayNextTarget(queueId: string, itemId: string, index: int, current: int): (r: PlayNext)
    ensures r.NoMove? <==> queueId == [] || itemId == [] || index == current + 1
    ensures r.MoveTo? && index < current + 1 ==> r.target == current
    ensures r.MoveTo? && index > current + 1 ==> r.target == current + 1
  {
    if queueId == [] || itemId == [] || index == current + 1 then NoMove
    else if index < current + 1 then MoveTo(current)
    else MoveTo(current + 1)
  }

  /** After the move, the item sits right after the track that is playing,
      from either side of it. */
  lemma PlayNextLandsAfterCurrent<T>(q: seq<T>, queueId: string, itemId: string, index: nat, current: nat)
    requires index < |q| && current < |q| && index != current
    requires PlayNextTarget(queueId, itemId, index, current).MoveTo?
    ensures var t := PlayNextTarget(queueId, itemId, index, current).target;
            1 <= t < |q| && MoveItem(q, index, t)[t] == q[index] && MoveItem(q, index, t)[t - 1] == q[current]
  {
    var t := PlayNextTarget(queueId, itemId, index, current).target;
    var rest := q[..index] + q[index + 1..];
    var r := MoveItem(q, index, t);
    if index < current {
      assert r[t - 1] == rest[current - 1] == q[current];
    } else {
      assert r[t - 1] == rest[current] == q[current];
    }
  }

  // ---------------------------------------------------------------- transfer and sync

  /** Why `transfer_queue_to` or `sync_with_player` does nothing. */
  datatype Refusal = NoTarget | NoDefaultPlayer | SamePlayer

  /** The source and target a queue transfer or player sync acts on: the
      default player and the selected one, which must both be set and
      differ. */
  function GroupPair(defaultPlayer: string, target: string): (r: Result<(string, string), Refusal>)
    ensures r.Ok? <==> target != [] && defaultPlayer != [] && defaultPlayer != target
    ensures r.Ok? ==> r.value == (defaultPlayer, target)
    ensures r == Err(SamePlayer) <==> target != [] && defaultPlayer == target
  {
    if target == [] then Err(NoTarget)
    else if defaultPlayer == [] then Err(NoDefaultPlayer)
    else if defaultPlayer == target then Err(SamePlayer)
    else Ok((defaultPlayer, target))
  }
}
