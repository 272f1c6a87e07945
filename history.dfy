/** The history recorder: the new progress record goes to the front, any
    older record of the same item is dropped, and the list is cut to its
    first fifty records. */
module History {
  import opened Entries
  import opened JsNumber

  /** The number of records `updateHistory` keeps. */
  const HistoryCap: nat := 50

  /** The optional second argument of `updateHistory` (`{}` when omitted). */
  datatype Metadata = Metadata(season: Option<int>, episode: Option<int>)

  const NoMetadata := Metadata(None, None)

  /** The record built for `item`, stamped with the clock reading `now`. */
  function NewRecord(item: Content, metadata: Metadata, now: int): (r: HistoryRecord)
    ensures r.content == item && r.lastUpdated == now
    ensures metadata.season.Some? && metadata.season.value != 0 ==> r.lastSeason == metadata.season.value
    ensures metadata.episode.Some? && metadata.episode.value != 0 ==> r.lastEpisode == metadata.episode.value
    ensures metadata.season == Some(0) || metadata.season == None ==> r.lastSeason == 1
    ensures metadata.episode == Some(0) || metadata.episode == None ==> r.lastEpisode == 1
    ensures (metadata.season.None? || metadata.season.value >= 0) ==> r.lastSeason >= 1
    ensures (metadata.episode.None? || metadata.episode.value >= 0) ==> r.lastEpisode >= 1
  {
    HistoryRecord(item, OrOne(metadata.season), OrOne(metadata.episode), now)
  }

  /** The new history `updateHistory(item, metadata)` computes from the old one. */
  function UpdateHistory(prev: seq<HistoryRecord>, item: Content, metadata: Metadata, now: int): (r: seq<HistoryRecord>)
    ensures 1 <= |r| <= HistoryCap
    ensures |r| == if |Without(prev, RecordId, item.id)| < HistoryCap then |Without(prev, RecordId, item.id)| + 1 else HistoryCap
    ensures r[0] == NewRecord(item, metadata, now)
    ensures forall i :: 1 <= i < |r| ==> r[i].content.id != item.id
    ensures r[1..] == Take(Without(prev, RecordId, item.id), HistoryCap - 1)
  {
    var existingIndex := IndexOfId(prev, RecordId, item.id);
    var record := NewRecord(item, metadata, now);
    var updated := if existingIndex != -1 then [record] + Without(prev, RecordId, item.id) else [record] + prev;
    var r := Take(updated, HistoryCap);
    assert r[1..] == Take(Without(prev, RecordId, item.id), HistoryCap - 1);
    r
  }

  /** Recording keeps the history free of duplicate ids. */
  lemma UpdateHistoryUnique(prev: seq<HistoryRecord>, item: Content, metadata: Metadata, now: int)
    requires UniqueIds(prev, RecordId)
    ensures UniqueIds(UpdateHistory(prev, item, metadata, now), RecordId)
  {
    var r := UpdateHistory(prev, item, metadata, now);
    var kept := Without(prev, RecordId, item.id);
    WithoutUnique(prev, RecordId, item.id);
    forall i, j | 0 <= i < |r| && 0 <= j < |r| && i != j
      ensures RecordId(r[i]) != RecordId(r[j])
    {
      if i > 0 && j > 0 {
        assert r[i] == r[1..][i - 1] == kept[i - 1];
        assert r[j] == r[1..][j - 1] == kept[j - 1];
      }
    }
  }

  /** Recording an item that is already first among two keeps the second record
      after it: `[A, B]` becomes `[A', B]`. */
  lemma UpdateHistoryMovesToFront(a: HistoryRecord, b: HistoryRecord, metadata: Metadata, now: int)
    requires a.content.id != b.content.id
    ensures UpdateHistory([a, b], a.content, metadata, now) == [NewRecord(a.content, metadata, now), b]
  {
    var kept := Without([a, b], RecordId, a.content.id);
    assert [a, b][1..] == [b];
    assert kept == [b];
  }

  /** Recording the same item twice gives the history of recording it once,
      at the later time: the page's initial watch and the progress effect
      that follows it leave one record. */
  lemma UpdateHistoryRepeat(prev: seq<HistoryRecord>, item: Content, metadata: Metadata, t1: int, t2: int)
    ensures UpdateHistory(UpdateHistory(prev, item, metadata, t1), item, metadata, t2) == UpdateHistory(prev, item, metadata, t2)
  {
    var once := UpdateHistory(prev, item, metadata, t1);
    var kept := Take(Without(prev, RecordId, item.id), HistoryCap - 1);
    assert once == [once[0]] + kept;
    assert Without(once, RecordId, item.id) == kept by {
      WithoutConcat([once[0]], kept, RecordId, item.id);
      assert !HasId(kept, RecordId, item.id);
    }
    var twice := UpdateHistory(once, item, metadata, t2);
    var direct := UpdateHistory(prev, item, metadata, t2);
    assert twice[1..] == Take(kept, HistoryCap - 1) == kept == direct[1..];
    assert twice == [twice[0]] + twice[1..];
    assert direct == [direct[0]] + direct[1..];
  }

  /** The history after recording `items` one after the other, each without
      metadata, at the same clock reading. */
  function RecordAll(prev: seq<HistoryRecord>, items: seq<Content>, now: int): (r: seq<HistoryRecord>)
    decreases |items|
  {
    if items == [] then prev
    else UpdateHistory(RecordAll(prev, items[..|items| - 1], now), items[|items| - 1], NoMetadata, now)
  }

  /** The ids of a history, in order. */
  function RecordIds(h: seq<HistoryRecord>): (ids: seq<Id>)
    ensures |ids| == |h| && forall i :: 0 <= i < |h| ==> ids[i] == h[i].content.id
  {
    if h == [] then [] else [h[0].content.id] + RecordIds(h[1..])
  }

  /** The ids of `items`, last one first. */
  function NewestFirst(items: seq<Content>): (ids: seq<Id>)
    ensures |ids| == |items| && forall i :: 0 <= i < |items| ==> ids[i] == items[|items| - 1 - i].id
  {
    if items == [] then [] else [items[|items| - 1].id] + NewestFirst(items[..|items| - 1])
  }

  /** Recording items with distinct ids into an empty history keeps the most
      recent fifty of them, newest first. */
  lemma {:induction false} RecordAllNewestFirst(items: seq<Content>, now: int)
    requires UniqueIds(items, ContentId)
    ensures RecordIds(RecordAll([], items, now)) == Take(NewestFirst(items), HistoryCap)
    decreases |items|
  {
    if items != [] {
      UniquePrefix(items, ContentId, |items| - 1);
      RecordAllNewestFirst(items[..|items| - 1], now);
      LastIsNew(items);
      RecordFreshStep(RecordAll([], items[..|items| - 1], now), items, now);
    }
  }

  /** The last of a list of items with distinct ids differs from every earlier one. */
  lemma LastIsNew(items: seq<Content>)
    requires UniqueIds(items, ContentId) && items != []
    ensures forall k :: 0 <= k < |items| - 1 ==> items[k].id != items[|items| - 1].id
  {
    forall k | 0 <= k < |items| - 1 ensures items[k].id != items[|items| - 1].id {
      assert ContentId(items[k]) != ContentId(items[|items| - 1]);
    }
  }

  /** An id occurs in a history exactly when it is among its ids. */
  lemma RecordIdsHas(h: seq<HistoryRecord>, id: Id)
    ensures HasId(h, RecordId, id) <==> id in RecordIds(h)
  {
    if id in RecordIds(h) {
      var j :| 0 <= j < |RecordIds(h)| && RecordIds(h)[j] == id;
      assert RecordId(h[j]) == id;
    }
  }

  /** The inductive step: recording the last of `items`, whose id is new, on
      top of the history of the earlier ones puts its id first and shifts the
      others by one. */
  lemma RecordFreshStep(rp: seq<HistoryRecord>, items: seq<Content>, now: int)
    requires items != []
    requires RecordIds(rp) == Take(NewestFirst(items[..|items| - 1]), HistoryCap)
    requires forall k :: 0 <= k < |items| - 1 ==> items[k].id != items[|items| - 1].id
    ensures RecordIds(UpdateHistory(rp, items[|items| - 1], NoMetadata, now)) == Take(NewestFirst(items), HistoryCap)
  {
    var n := |items|;
    var earlier := items[..n - 1];
    var item := items[n - 1];
    assert NewestFirst(items) == [item.id] + NewestFirst(earlier);
    assert !HasId(rp, RecordId, item.id) by {
      RecordIdsHas(rp, item.id);
      forall j | 0 <= j < |rp| ensures RecordIds(rp)[j] != item.id {
        assert NewestFirst(earlier)[j] == earlier[n - 2 - j].id;
      }
    }
    UpdateHistoryFresh(rp, item, NoMetadata, now);
    var r := Take([NewRecord(item, NoMetadata, now)] + rp, HistoryCap);
    var wanted := Take(NewestFirst(items), HistoryCap);
    forall j | 0 <= j < |r| ensures RecordIds(r)[j] == wanted[j] {
      if j > 0 {
        assert r[j] == rp[j - 1];
      }
    }
  }

  /** Recording an item that has no record prepends it and keeps the first
      forty-nine older records. */
  lemma UpdateHistoryFresh(prev: seq<HistoryRecord>, item: Content, metadata: Metadata, now: int)
    requires !HasId(prev, RecordId, item.id)
    ensures UpdateHistory(prev, item, metadata, now) == Take([NewRecord(item, metadata, now)] + prev, HistoryCap)
  {
  }

  /** Fifty-one records of distinct items leave exactly fifty, and the first
      item recorded is gone. */
  lemma RecordFiftyOneDropsFirst(items: seq<Content>, now: int)
    requires UniqueIds(items, ContentId) && |items| == HistoryCap + 1
    ensures |RecordAll([], items, now)| == HistoryCap
    ensures !HasId(RecordAll([], items, now), RecordId, items[0].id)
  {
    RecordAllNewestFirst(items, now);
    var ids := RecordIds(RecordAll([], items, now));
    forall j | 0 <= j < |ids| ensures ids[j] != items[0].id {
      assert NewestFirst(items)[j] == items[HistoryCap - j].id;
      assert ContentId(items[0]) != ContentId(items[HistoryCap - j]);
    }
    RecordIdsHas(RecordAll([], items, now), items[0].id);
  }
}
