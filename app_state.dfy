/** The watch-state owner of the application shell: the two collections, the
    signed-in user, their copy in local storage, and the single debounce
    timer that sends both collections to the remote store three seconds after
    the last change. */
module App {
  import opened Entries
  import opened Watchlist
  import opened History
  import opened Merge

  /** The debounce delay of the remote write, in milliseconds. */
  const DebounceMs: int := 3000

  type UserId = string

  /** What `localStorage.getItem(key)` gives back: no entry (null), the empty
      string, a JSON array of entries, or text that `JSON.parse` rejects. */
  datatype Saved<T> = Missing | Blank | Json(items: seq<T>) | Malformed

  datatype Result<T> = Ok(value: T) | ParseError

  /** Local storage as the two keys the core uses, `watchparty_watchlist`
      and `watchparty_history`. */
  datatype LocalStore = LocalStore(watchlist: Saved<Content>, history: Saved<HistoryRecord>)

  /** The payload `{watchlist, history}` of a remote write. */
  datatype Snapshot = Snapshot(watchlist: seq<Content>, history: seq<HistoryRecord>)

  /** The armed `setTimeout(saveToDB, 3000)`: when it is due and what its
      closure captured. */
  datatype Timer = Timer(deadline: int, snapshot: Snapshot, user: Option<UserId>)

  /** One `updateUserData(userId, {watchlist, history})` call. */
  datatype RemoteUpdate = RemoteUpdate(user: UserId, data: Snapshot)

  /** The row `fetchUserData` returns; either column may be missing. */
  datatype RemoteData = RemoteData(watchlist: Option<seq<Content>>, history: Option<seq<HistoryRecord>>)

  /** The lazy initialiser `saved ? JSON.parse(saved) : []`. A missing or
      empty entry gives the empty list; text that does not parse makes the
      initialiser throw, which nothing catches. */
  function LoadList<T>(saved: Saved<T>): (r: Result<seq<T>>)
    ensures r.ParseError? <==> saved.Malformed?
    ensures r.Ok? && !saved.Json? ==> r.value == []
    ensures saved.Json? ==> r == Ok(saved.items)
  {
    match saved
    case Missing => Ok([])
    case Blank => Ok([])
    case Json(items) => Ok(items)
    case Malformed => ParseError
  }

  /** What the save effect writes: both lists, JSON-encoded. */
  function Persisted(watchlist: seq<Content>, history: seq<HistoryRecord>): LocalStore
  {
    LocalStore(Json(watchlist), Json(history))
  }

  /** A reload reads back exactly the lists that were last written. Local
      storage holds the lists themselves rather than their JSON text, so this
      only restates that abstraction: `JSON.parse(JSON.stringify(x))` giving
      back `x` is taken for granted, not proved. */
  lemma LoadAfterSave(watchlist: seq<Content>, history: seq<HistoryRecord>)
    ensures LoadList(Persisted(watchlist, history).watchlist) == Ok(watchlist)
    ensures LoadList(Persisted(watchlist, history).history) == Ok(history)
  {
  }

  class WatchState {
    var watchlist: seq<Content>
    var history: seq<HistoryRecord>
    var user: Option<UserId>
    var store: LocalStore
    /** The timer handle of the save effect, if one is armed. */
    var pending: Option<Timer>
    /** Every remote write issued so far, oldest first. */
    var sent: seq<RemoteUpdate>
    /** Every `fetchUserData` issued by the login sync, oldest first. */
    var fetches: seq<UserId>
    /** The time of the latest event. */
    var clock: int
    /** The time of the latest change the save effect reacted to. */
    ghost var lastChange: int

    /** Local storage always mirrors the collections, and an armed timer
        carries the current state and user and is due three seconds after the
        latest change. */
    ghost predicate Valid()
      reads this
    {
      && store == Persisted(watchlist, history)
      && lastChange <= clock
      && (pending.Some? ==>
            && pending.value.snapshot == Snapshot(watchlist, history)
            && pending.value.user == user
            && pending.value.deadline == lastChange + DebounceMs)
    }

    /** The event at `now` comes no earlier than the previous one, and a due
        timer has already been delivered. */
    ghost predicate OnTime(now: int)
      reads this
    {
      clock <= now && (pending.None? || now <= pending.value.deadline)
    }

    /** Mounting: both lists are loaded from local storage, then the save
        effect runs once. */
    constructor (savedWatchlist: Saved<Content>, savedHistory: Saved<HistoryRecord>, now: int)
      requires !savedWatchlist.Malformed? && !savedHistory.Malformed?
      ensures Valid()
      ensures LoadList(savedWatchlist) == Ok(watchlist) && LoadList(savedHistory) == Ok(history)
      ensures user == None && sent == [] && fetches == [] && clock == now
      ensures store == Persisted(watchlist, history)
      ensures pending == Some(Timer(now + DebounceMs, Snapshot(watchlist, history), None))
    {
      watchlist := LoadList(savedWatchlist).value;
      history := LoadList(savedHistory).value;
      user := None;
      sent := [];
      fetches := [];
      store := Persisted(LoadList(savedWatchlist).value, LoadList(savedHistory).value);
      pending := Some(Timer(now + DebounceMs, Snapshot(LoadList(savedWatchlist).value, LoadList(savedHistory).value), None));
      clock := now;
      lastChange := now;
    }

    /** The save effect: write both lists to local storage, cancel the armed
        timer and arm a new one with the current state. */
    method Persist(now: int)
      requires clock <= now
      modifies this
      ensures Valid()
      ensures watchlist == old(watchlist) && history == old(history) && user == old(user)
      ensures sent == old(sent) && fetches == old(fetches)
      ensures store == Persisted(watchlist, history)
      ensures pending == Some(Timer(now + DebounceMs, Snapshot(watchlist, history), user))
      ensures clock == now && lastChange == now
    {
      store := Persisted(watchlist, history);
      pending := Some(Timer(now + DebounceMs, Snapshot(watchlist, history), user));
      clock := now;
      lastChange := now;
    }

    /** `toggleWatchlist(item)` followed by the save effect. */
    method ToggleWatchlist(item: Content, now: int)
      requires Valid() && OnTime(now)
      modifies this
      ensures Valid()
      ensures watchlist == Toggle(old(watchlist), item)
      ensures history == old(history) && user == old(user)
      ensures sent == old(sent) && fetches == old(fetches) && clock == now
      ensures store == Persisted(watchlist, history)
      ensures pending == Some(Timer(now + DebounceMs, Snapshot(watchlist, history), user))
    {
      watchlist := Toggle(watchlist, item);
      Persist(now);
    }

    /** `updateHistory(item, metadata)` with the clock reading `now` as its
        timestamp, followed by the save effect. */
    method UpdateHistory(item: Content, metadata: Metadata, now: int)
      requires Valid() && OnTime(now)
      modifies this
      ensures Valid()
      ensures history == History.UpdateHistory(old(history), item, metadata, now)
      ensures watchlist == old(watchlist) && user == old(user)
      ensures sent == old(sent) && fetches == old(fetches) && clock == now
      ensures store == Persisted(watchlist, history)
      ensures pending == Some(Timer(now + DebounceMs, Snapshot(watchlist, history), user))
    {
      history := History.UpdateHistory(history, item, metadata, now);
      Persist(now);
    }

    /** A session delivery (`getSession` or `onAuthStateChange`): `setUser`
        with the new user or null. Null over null changes nothing; any other
        delivery re-runs the save effect and, for a signed-in user, starts the
        login sync, which issues a `fetchUserData`. */
    method SessionChanged(u: Option<UserId>, now: int)
      requires Valid() && OnTime(now)
      modifies this
      ensures Valid()
      ensures watchlist == old(watchlist) && history == old(history) && sent == old(sent)
      ensures user == u && clock == now
      ensures u.None? && old(user).None? ==> pending == old(pending) && fetches == old(fetches)
      ensures u.Some? || old(user).Some? ==>
        pending == Some(Timer(now + DebounceMs, Snapshot(watchlist, history), u))
      ensures fetches == if u.Some? then old(fetches) + [u.value] else old(fetches)
    {
      if u.None? && user.None? {
        clock := now;
      } else {
        user := u;
        Persist(now);
        if u.Some? {
          fetches := fetches + [u.value];
        }
      }
    }

    /** The answer to a `fetchUserData` arrives (`None` when the query
        failed). Each column present is merged into its list and the save
        effect runs. Nothing checks that the answer belongs to the current
        user. */
    method RemoteDataArrived(data: Option<RemoteData>, now: int)
      requires Valid() && OnTime(now)
      modifies this
      ensures Valid()
      ensures watchlist == if data.Some? && data.value.watchlist.Some?
        then Merged(old(watchlist), data.value.watchlist.value, ContentId) else old(watchlist)
      ensures history == if data.Some? && data.value.history.Some?
        then Merged(old(history), data.value.history.value, RecordId) else old(history)
      ensures user == old(user) && sent == old(sent) && fetches == old(fetches) && clock == now
      ensures data.Some? && (data.value.watchlist.Some? || data.value.history.Some?) ==>
        pending == Some(Timer(now + DebounceMs, Snapshot(watchlist, history), user))
      ensures data.None? || (data.value.watchlist.None? && data.value.history.None?) ==>
        pending == old(pending)
    {
      clock := now;
      if data.Some? && (data.value.watchlist.Some? || data.value.history.Some?) {
        if data.value.watchlist.Some? {
          watchlist := MergeById(watchlist, data.value.watchlist.value, ContentId);
        }
        if data.value.history.Some? {
          history := MergeById(history, data.value.history.value, RecordId);
        }
        Persist(now);
      }
    }

    /** Time passes to `now`. A timer that is due fires once: it sends the
        state it captured when a user was signed in, and is then spent. */
    method Tick(now: int)
      requires Valid() && clock <= now
      modifies this
      ensures Valid()
      ensures watchlist == old(watchlist) && history == old(history) && user == old(user)
      ensures store == old(store) && fetches == old(fetches) && clock == now
      ensures old(pending).None? || now < old(pending).value.deadline ==>
        pending == old(pending) && sent == old(sent)
      ensures old(pending).Some? && old(pending).value.deadline <= now ==>
        pending == None &&
        sent == old(sent) + (if user.Some? then [RemoteUpdate(user.value, Snapshot(watchlist, history))] else [])
      ensures |sent| > |old(sent)| ==> now >= lastChange + DebounceMs
    {
      if pending.Some? && pending.value.deadline <= now {
        if pending.value.user.Some? {
          sent := sent + [RemoteUpdate(pending.value.user.value, pending.value.snapshot)];
        }
        pending := None;
      }
      clock := now;
    }

    /** The shell unmounts: the effect cleanup cancels the armed timer and
        nothing is sent. */
    method Unmount()
      requires Valid()
      modifies this
      ensures Valid()
      ensures pending == None && sent == old(sent) && fetches == old(fetches)
      ensures watchlist == old(watchlist) && history == old(history) && user == old(user)
      ensures store == old(store) && clock == old(clock)
    {
      pending := None;
    }
  }

  /** Two watchlist changes one second apart while signed in: nothing is sent
      until three seconds after the second, and then one write carries the
      state after both. */
  method TwoChangesOneWrite(uid: UserId, a: Content, b: Content) returns (updates: seq<RemoteUpdate>)
    requires a.id != b.id
    ensures updates == [RemoteUpdate(uid, Snapshot([a, b], []))]
  {
    var s := new WatchState(Missing, Missing, 0);
    s.SessionChanged(Some(uid), 0);
    s.ToggleWatchlist(a, 1000);
    assert s.watchlist == [a] by {
      assert !HasId([], ContentId, a.id);
    }
    s.ToggleWatchlist(b, 2000);
    assert s.watchlist == [a, b] by {
      assert !HasId([a], ContentId, b.id);
      assert [a] + [b] == [a, b];
    }
    s.Tick(4999);
    assert s.sent == [];
    s.Tick(5000);
    updates := s.sent;
  }

  /** A change made less than three seconds before signing out is not sent
      while signed out: the sign-out re-arms the timer without a user. */
  method SignOutDropsPendingChange(uid: UserId, a: Content) returns (updates: seq<RemoteUpdate>)
    ensures updates == []
  {
    var s := new WatchState(Missing, Missing, 0);
    s.SessionChanged(Some(uid), 0);
    s.ToggleWatchlist(a, 1000);
    s.SessionChanged(None, 2000);
    s.Tick(10000);
    updates := s.sent;
  }

  /** The change skipped by the sign-out is not lost: it stays in the
      watchlist, and the next sign-in re-runs the save effect with the user,
      whose write carries it. */
  method SignInAgainSendsChange(uid: UserId, a: Content) returns (updates: seq<RemoteUpdate>)
    ensures updates == [RemoteUpdate(uid, Snapshot([a], []))]
  {
    var s := new WatchState(Missing, Missing, 0);
    s.SessionChanged(Some(uid), 0);
    s.ToggleWatchlist(a, 1000);
    assert s.watchlist == [a] by {
      assert !HasId([], ContentId, a.id);
    }
    s.SessionChanged(None, 2000);
    s.Tick(10000);
    assert s.sent == [];
    s.SessionChanged(Some(uid), 11000);
    s.Tick(14000);
    updates := s.sent;
  }
}
