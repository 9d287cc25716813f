/** The chat list: the users fetched from the server (minus the signed-in
    user), the tab filter and search, the per-row menu actions, the mute
    table and the groups created from the sidebar. */
module ChatList {
  import opened Wrappers
  import opened Seqs
  import opened Text

  /** The value a row hands to its menu handlers, `user._id || user.id`:
      the server id when it is a non-empty string, otherwise the row's `id`
      (a group's creation time), otherwise `undefined`. */
  datatype Key = ServerId(id: string) | GroupStamp(stamp: int) | Undefined

  /** A list row. Server users carry `_id`, names and flags; a group
      created here carries only `id`, `name` and `isNew`. */
  datatype Entry = Entry(
    uid: Option<string>,
    groupId: Option<int>,
    firstname: Option<string>,
    lastname: Option<string>,
    name: Option<string>,
    isGroup: bool,
    isNew: bool,
    isArchived: bool)

  /** One row of the mute table. */
  datatype Mute = Mute(userId: Key, muteUntil: int)

  /** One minute in milliseconds. */
  const MinuteMs: int := 60000

  function KeyOf(e: Entry): Key
  {
    if e.uid.Some? && e.uid.value != "" then ServerId(e.uid.value)
    else if e.groupId.Some? then GroupStamp(e.groupId.value)
    else Undefined
  }

  /** `user._id === userId`, the test the menu handlers apply to each row. */
  predicate Matches(e: Entry, key: Key)
  {
    match e.uid
    case Some(id) => key == ServerId(id)
    case None => key == Undefined
  }

  /** The fetched users without the signed-in one (`currentUser` is `null`
      when nobody is stored). */
  function LoadUsers(fetched: seq<Entry>, currentUser: Option<string>): (r: seq<Entry>)
    ensures IsSubsequence(r, fetched)
    ensures currentUser.Some? ==> forall i :: 0 <= i < |r| ==> r[i].uid != currentUser
    ensures forall i :: 0 <= i < |fetched| && (currentUser.None? || fetched[i].uid != currentUser) ==> fetched[i] in r
  {
    Filter(fetched, (e: Entry) => currentUser.None? || e.uid != currentUser)
  }

  /** The tab filter: "New" and "Archived" test their flag, "All" and any
      other value keep the row. */
  predicate TabKeeps(tab: string, e: Entry)
  {
    if tab == "New" then e.isNew
    else if tab == "Archived" then e.isArchived
    else true
  }

  /** The text the search looks at: `${firstname} ${lastname}`. */
  function SearchText(e: Entry): string
  {
    FullName(Render(e.firstname), Render(e.lastname))
  }

  predicate Shown(tab: string, term: string, e: Entry)
  {
    TabKeeps(tab, e) && SearchMatches(SearchText(e), term)
  }

  /** The rows displayed: an order-preserving subsequence holding exactly
      the rows that pass the tab filter and the search. */
  function FilteredUsers(users: seq<Entry>, tab: string, term: string): (r: seq<Entry>)
    ensures IsSubsequence(r, users)
    ensures forall i :: 0 <= i < |r| ==> r[i] in users && Shown(tab, term, r[i])
    ensures forall i :: 0 <= i < |users| && Shown(tab, term, users[i]) ==> users[i] in r
  {
    var byTab := Filter(users, (e: Entry) => TabKeeps(tab, e));
    var found := Filter(byTab, (e: Entry) => SearchMatches(SearchText(e), term));
    SubsequenceTransitive(found, byTab, users);
    found
  }

  /** With the "All" tab and an empty search every row is displayed. */
  lemma AllTabEmptySearchShowsAll(users: seq<Entry>)
    ensures FilteredUsers(users, "All", "") == users
  {
    forall e: Entry {
      EmptySearchMatchesAll(SearchText(e));
    }
    var keepTab := (e: Entry) => TabKeeps("All", e);
    var keepSearch := (e: Entry) => SearchMatches(SearchText(e), "");
    FilterKeepsAll(users, keepTab);
    FilterKeepsAll(users, keepSearch);
  }

  /** A created group has no first or last name, so the search sees
      "undefined undefined" and the term "undefined" finds every group. */
  lemma GroupsMatchUndefined(e: Entry)
    requires e.firstname.None? && e.lastname.None?
    ensures SearchMatches(SearchText(e), "undefined")
  {
    assert OccursAt(ToLower(SearchText(e)), ToLower("undefined"), 0);
  }

  /** Mark as read: `isNew` cleared on the matching rows only. */
  function MarkedRead(users: seq<Entry>, key: Key): (r: seq<Entry>)
    ensures |r| == |users|
    ensures forall i :: 0 <= i < |r| && Matches(users[i], key) ==> r[i] == users[i].(isNew := false)
    ensures forall i :: 0 <= i < |r| && !Matches(users[i], key) ==> r[i] == users[i]
  {
    seq(|users|, i requires 0 <= i < |users| => if Matches(users[i], key) then users[i].(isNew := false) else users[i])
  }

  /** After mark-as-read the "New" tab no longer shows the row, whatever the
      search, and marking twice is marking once. */
  lemma MarkReadLeavesNewTab(users: seq<Entry>, key: Key, term: string)
    ensures forall i :: 0 <= i < |FilteredUsers(MarkedRead(users, key), "New", term)| ==>
              !Matches(FilteredUsers(MarkedRead(users, key), "New", term)[i], key)
    ensures MarkedRead(MarkedRead(users, key), key) == MarkedRead(users, key)
  {
    var marked := MarkedRead(users, key);
    var shown := FilteredUsers(marked, "New", term);
    forall i | 0 <= i < |shown| ensures !Matches(shown[i], key) {
      var j :| 0 <= j < |marked| && marked[j] == shown[i];
      assert shown[i].isNew;
    }
  }

  /** Delete: exactly the matching rows removed, the others kept in order. */
  function Deleted(users: seq<Entry>, key: Key): (r: seq<Entry>)
    ensures IsSubsequence(r, users)
    ensures forall i :: 0 <= i < |r| ==> !Matches(r[i], key)
    ensures forall i :: 0 <= i < |users| && !Matches(users[i], key) ==> users[i] in r
  {
    Filter(users, (e: Entry) => !Matches(e, key))
  }

  /** Archive: `isArchived` set on the matching rows only. */
  function Archived(users: seq<Entry>, key: Key): (r: seq<Entry>)
    ensures |r| == |users|
    ensures forall i :: 0 <= i < |r| && Matches(users[i], key) ==> r[i] == users[i].(isArchived := true)
    ensures forall i :: 0 <= i < |r| && !Matches(users[i], key) ==> r[i] == users[i]
  {
    seq(|users|, i requires 0 <= i < |users| => if Matches(users[i], key) then users[i].(isArchived := true) else users[i])
  }

  /** An archived row that passes the search is shown under "Archived". */
  lemma ArchivedRowsInArchivedTab(users: seq<Entry>, key: Key, term: string, i: nat)
    requires i < |users| && Matches(users[i], key)
    requires SearchMatches(SearchText(users[i]), term)
    ensures Archived(users, key)[i] in FilteredUsers(Archived(users, key), "Archived", term)
  {
    var archived := Archived(users, key);
    assert archived[i] == users[i].(isArchived := true);
    assert SearchText(archived[i]) == SearchText(users[i]);
  }

  /** The first mute-table row for `key`, as `Array.prototype.find` returns it. */
  function FirstMute(muted: seq<Mute>, key: Key): (r: Option<nat>)
    ensures r.Some? ==> r.value < |muted| && muted[r.value].userId == key
    ensures r.Some? ==> forall j :: 0 <= j < r.value ==> muted[j].userId != key
    ensures r.None? <==> forall j :: 0 <= j < |muted| ==> muted[j].userId != key
  {
    if muted == [] then None
    else if muted[0].userId == key then Some(0)
    else match FirstMute(muted[1..], key)
      case None => None
      case Some(k) => Some(k + 1)
  }

  /** `isMuted(key)`: the first row for `key` has not expired at `now`. */
  function IsMuted(muted: seq<Mute>, key: Key, now: int): (r: bool)
    ensures r <==> exists i :: 0 <= i < |muted| && muted[i].userId == key && muted[i].muteUntil > now &&
                              forall j :: 0 <= j < i ==> muted[j].userId != key
  {
    match FirstMute(muted, key)
    case None => false
    case Some(i) => muted[i].muteUntil > now
  }

  /** The mute row appended for `minutes` minutes from `now`. */
  function MuteFor(key: Key, now: int, minutes: int): Mute
  {
    Mute(key, now + minutes * MinuteMs)
  }

  /** Muting a key that has no row yet mutes it until the deadline. */
  lemma {:induction false} MuteTakesEffect(muted: seq<Mute>, key: Key, now: int, minutes: int, at: int)
    requires forall j :: 0 <= j < |muted| ==> muted[j].userId != key
    ensures IsMuted(muted + [MuteFor(key, now, minutes)], key, at) <==> at < now + minutes * 60000
  {
    var all := muted + [MuteFor(key, now, minutes)];
    assert all[|muted|].userId == key;
    assert FirstMute(all, key) == Some(|muted|);
  }

  /** Muting a key again adds a row that `isMuted` never looks at: the first
      mute stands, however long the new one would last. */
  lemma MuteAgainIsIgnored(muted: seq<Mute>, key: Key, now: int, minutes: int, at: int)
    requires FirstMute(muted, key).Some?
    ensures IsMuted(muted + [MuteFor(key, now, minutes)], key, at) == IsMuted(muted, key, at)
  {
    var i := FirstMute(muted, key).value;
    var all := muted + [MuteFor(key, now, minutes)];
    assert all[i] == muted[i];
    assert FirstMute(all, key) == Some(i);
  }

  /** Unmute: every row for `key` removed. */
  function Unmuted(muted: seq<Mute>, key: Key): (r: seq<Mute>)
    ensures IsSubsequence(r, muted)
    ensures forall i :: 0 <= i < |r| ==> r[i].userId != key
    ensures forall i :: 0 <= i < |muted| && muted[i].userId != key ==> muted[i] in r
  {
    Filter(muted, (m: Mute) => m.userId != key)
  }

  /** After unmuting, the key is not muted at any time. */
  lemma UnmuteClears(muted: seq<Mute>, key: Key, at: int)
    ensures !IsMuted(Unmuted(muted, key), key, at)
  {
  }

  /** The deadline of the first row for `key`, if any. */
  function FirstDeadline(muted: seq<Mute>, key: Key): Option<int>
  {
    match FirstMute(muted, key)
    case None => None
    case Some(i) => Some(muted[i].muteUntil)
  }

  lemma FirstDeadlineSkipsHead(muted: seq<Mute>, key: Key)
    requires muted != [] && muted[0].userId != key
    ensures FirstDeadline(muted, key) == FirstDeadline(muted[1..], key)
  {
  }

  lemma {:induction false} UnmuteKeepsDeadline(muted: seq<Mute>, key: Key, other: Key)
    requires other != key
    ensures FirstDeadline(Unmuted(muted, key), other) == FirstDeadline(muted, other)
  {
    if muted != [] {
      var rest := Unmuted(muted[1..], key);
      UnmuteKeepsDeadline(muted[1..], key, other);
      if muted[0].userId == key {
        assert Unmuted(muted, key) == rest;
        FirstDeadlineSkipsHead(muted, other);
      } else {
        assert Unmuted(muted, key) == [muted[0]] + rest;
        if muted[0].userId != other {
          FirstDeadlineSkipsHead(muted, other);
          FirstDeadlineSkipsHead([muted[0]] + rest, other);
          assert ([muted[0]] + rest)[1..] == rest;
        }
      }
    }
  }

  /** Unmuting one key does not change whether another key is muted. */
  lemma UnmuteKeepsOthers(muted: seq<Mute>, key: Key, other: Key, at: int)
    requires other != key
    ensures IsMuted(Unmuted(muted, key), other, at) == IsMuted(muted, other, at)
  {
    UnmuteKeepsDeadline(muted, key, other);
    assert IsMuted(muted, other, at) <==> FirstDeadline(muted, other).Some? && FirstDeadline(muted, other).value > at;
    var u := Unmuted(muted, key);
    assert IsMuted(u, other, at) <==> FirstDeadline(u, other).Some? && FirstDeadline(u, other).value > at;
  }

  /** The row a group created at time `now` becomes. */
  function NewGroup(groupName: string, now: int): Entry
  {
    Entry(None, Some(now), None, None, Some(groupName), true, true, false)
  }

  /** A created group goes on top: in every view that shows it, it heads
      the rows that view showed before, and every other view is unchanged.
      The group shows in the "New" tab. */
  lemma GroupPrepended(users: seq<Entry>, groupName: string, now: int, tab: string, term: string)
    ensures Shown(tab, term, NewGroup(groupName, now)) ==>
              FilteredUsers([NewGroup(groupName, now)] + users, tab, term) ==
              [NewGroup(groupName, now)] + FilteredUsers(users, tab, term)
    ensures !Shown(tab, term, NewGroup(groupName, now)) ==>
              FilteredUsers([NewGroup(groupName, now)] + users, tab, term) == FilteredUsers(users, tab, term)
    ensures TabKeeps("New", NewGroup(groupName, now))
  {
    var g := NewGroup(groupName, now);
    var keepTab := (e: Entry) => TabKeeps(tab, e);
    var keepSearch := (e: Entry) => SearchMatches(SearchText(e), term);
    FilterCons(g, users, keepTab);
    if keepTab(g) {
      FilterCons(g, Filter(users, keepTab), keepSearch);
    }
  }

  /** The menu handlers match `_id` while the row passes `_id || id`: a
      created group, which has only `id`, survives its own Delete. */
  lemma GroupSurvivesDelete(users: seq<Entry>, groupName: string, now: int)
    ensures NewGroup(groupName, now) in Deleted([NewGroup(groupName, now)] + users, KeyOf(NewGroup(groupName, now)))
  {
    var g := NewGroup(groupName, now);
    assert !Matches(g, KeyOf(g));
    assert ([g] + users)[0] == g;
  }

  /** Delete matching rows by the key the row itself passes. */
  function DeletedByKey(users: seq<Entry>, key: Key): (r: seq<Entry>)
    ensures IsSubsequence(r, users)
    ensures forall i :: 0 <= i < |r| ==> KeyOf(r[i]) != key
    ensures forall i :: 0 <= i < |users| && KeyOf(users[i]) != key ==> users[i] in r
  {
    Filter(users, (e: Entry) => KeyOf(e) != key)
  }

  /** Matching by the row's own key, Delete removes the row it was chosen
      from, a created group included, and leaves every row with another key. */
  lemma DeleteByKeyRemovesRow(users: seq<Entry>, i: nat)
    requires i < |users|
    ensures users[i] !in DeletedByKey(users, KeyOf(users[i]))
  {
  }

  /** The outcome of the user fetch: the request failed, the response had
      no user list, or it carried one. */
  datatype Fetch = Failed | NoUserList | UserList(fetched: seq<Entry>)

  const FetchFailed := "Failed to fetch users."

  class ChatListPanel {
    var users: seq<Entry>
    var mutedUsers: seq<Mute>
    var loading: bool
    var error: Option<string>

    constructor ()
      ensures users == [] && mutedUsers == [] && loading && error.None?
    {
      users, mutedUsers := [], [];
      loading, error := true, None;
    }

    /** The fetch effect as written: after storing the list it logs
        `response.data.users[1]._id`, which throws when the server sent
        fewer than two users; the catch then reports a failed fetch
        although the list was stored. */
    method Load(response: Fetch, currentUser: Option<string>)
      modifies this
      ensures response.UserList? ==> users == LoadUsers(response.fetched, currentUser)
      ensures !response.UserList? ==> users == old(users)
      ensures error == (if response.Failed? || (response.UserList? && |response.fetched| < 2)
                        then Some(FetchFailed) else old(error))
      ensures !loading && mutedUsers == old(mutedUsers)
    {
      match response {
        case Failed =>
          error := Some(FetchFailed);
        case NoUserList =>
        case UserList(fetched) =>
          users := LoadUsers(fetched, currentUser);
          if |fetched| < 2 {
            error := Some(FetchFailed);
          }
      }
      loading := false;
    }

    /** The fetch effect without the debug log: only a failed request is
        reported as one. */
    method LoadWithoutLog(response: Fetch, currentUser: Option<string>)
      modifies this
      ensures response.UserList? ==> users == LoadUsers(response.fetched, currentUser)
      ensures !response.UserList? ==> users == old(users)
      ensures error == (if response.Failed? then Some(FetchFailed) else old(error))
      ensures !loading && mutedUsers == old(mutedUsers)
    {
      match response {
        case Failed =>
          error := Some(FetchFailed);
        case NoUserList =>
        case UserList(fetched) =>
          users := LoadUsers(fetched, currentUser);
      }
      loading := false;
    }

    method MarkAsRead(key: Key)
      modifies this
      ensures users == MarkedRead(old(users), key) && mutedUsers == old(mutedUsers)
      ensures loading == old(loading) && error == old(error)
    {
      users := MarkedRead(users, key);
    }

    method Delete(key: Key)
      modifies this
      ensures users == Deleted(old(users), key) && mutedUsers == old(mutedUsers)
      ensures loading == old(loading) && error == old(error)
    {
      users := Deleted(users, key);
    }

    /** Delete matching each row by its own key, as the corrected handler. */
    method DeleteRow(key: Key)
      modifies this
      ensures users == DeletedByKey(old(users), key) && mutedUsers == old(mutedUsers)
      ensures loading == old(loading) && error == old(error)
    {
      users := DeletedByKey(users, key);
    }

    method Archive(key: Key)
      modifies this
      ensures users == Archived(old(users), key) && mutedUsers == old(mutedUsers)
      ensures loading == old(loading) && error == old(error)
    {
      users := Archived(users, key);
    }

    /** The mute dialog's confirm: one row appended for the selected key. */
    method MuteUser(key: Key, now: int, minutes: int)
      modifies this
      ensures mutedUsers == old(mutedUsers) + [MuteFor(key, now, minutes)]
      ensures users == old(users) && loading == old(loading) && error == old(error)
    {
      mutedUsers := mutedUsers + [Mute(key, now + minutes * MinuteMs)];
    }

    method Unmute(key: Key)
      modifies this
      ensures mutedUsers == Unmuted(old(mutedUsers), key) && users == old(users)
      ensures loading == old(loading) && error == old(error)
    {
      mutedUsers := Unmuted(mutedUsers, key);
    }

    method GroupCreate(groupName: string, now: int)
      modifies this
      ensures users == [NewGroup(groupName, now)] + old(users)
      ensures mutedUsers == old(mutedUsers) && loading == old(loading) && error == old(error)
    {
      users := [NewGroup(groupName, now)] + users;
    }
  }

  /** As written, a successful fetch of a single account shows that account
      and, above it, the failed-fetch message. */
  method SingleUserFetchReportsFailure(only: Entry) returns (shown: seq<Entry>, error: Option<string>)
    ensures shown == LoadUsers([only], None) && shown == [only]
    ensures error == Some(FetchFailed)
  {
    var panel := new ChatListPanel();
    panel.Load(UserList([only]), None);
    shown, error := panel.users, panel.error;
    FilterKeepsAll([only], (e: Entry) => true);
  }

  /** Without the debug log, the same fetch reports no error. */
  method SingleUserFetchWithoutLog(only: Entry) returns (shown: seq<Entry>, error: Option<string>)
    ensures shown == [only] && error.None?
  {
    var panel := new ChatListPanel();
    panel.LoadWithoutLog(UserList([only]), None);
    shown, error := panel.users, panel.error;
    FilterKeepsAll([only], (e: Entry) => true);
  }
}
