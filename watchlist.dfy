/** The watchlist toggle: an item whose id is listed is removed, any other
    item is appended. */
module Watchlist {
  import opened Entries

  /** The new watchlist `toggleWatchlist(item)` computes from the old one. */
  function Toggle(list: seq<Content>, item: Content): (r: seq<Content>)
    ensures HasId(r, ContentId, item.id) <==> !HasId(list, ContentId, item.id)
  {
    if HasId(list, ContentId, item.id) then Without(list, ContentId, item.id)
    else
      var appended := list + [item];
      assert appended[|list|] == item;
      appended
  }

  /** An item whose id is absent becomes the last entry; every earlier entry
      stays where it was. */
  lemma ToggleAbsentAppends(list: seq<Content>, item: Content)
    requires !HasId(list, ContentId, item.id)
    ensures |Toggle(list, item)| == |list| + 1
    ensures Toggle(list, item)[|list|] == item
    ensures Toggle(list, item)[..|list|] == list
  {
  }

  /** An item whose id is listed takes every entry with that id out; the other
      entries are kept in their order. */
  lemma TogglePresentRemoves(list: seq<Content>, item: Content)
    requires HasId(list, ContentId, item.id)
    ensures Toggle(list, item) == Without(list, ContentId, item.id)
    ensures forall i :: 0 <= i < |Toggle(list, item)| ==> Toggle(list, item)[i].id != item.id
  {
  }

  /** Toggling an absent item twice gives back exactly the original list. */
  lemma ToggleTwiceRestores(list: seq<Content>, item: Content)
    requires !HasId(list, ContentId, item.id)
    ensures Toggle(Toggle(list, item), item) == list
  {
    assert HasId(list + [item], ContentId, item.id) by {
      assert (list + [item])[|list|] == item;
    }
    WithoutConcat(list, [item], ContentId, item.id);
    assert Without([item], ContentId, item.id) == [];
  }

  /** Toggling the same item twice leaves the membership of every id as it
      was (a listed item comes back at the end rather than where it was). */
  lemma ToggleTwiceMembership(list: seq<Content>, item: Content, id: Id)
    ensures HasId(Toggle(Toggle(list, item), item), ContentId, id) <==> HasId(list, ContentId, id)
  {
    if HasId(list, ContentId, item.id) {
      var once := Without(list, ContentId, item.id);
      assert Toggle(once, item) == once + [item];
      if id != item.id {
        WithoutKeepsOtherIds(list, item.id, id);
        assert (once + [item])[..|once|] == once;
        if HasId(once + [item], ContentId, id) {
          var k :| 0 <= k < |once + [item]| && (once + [item])[k].id == id;
          assert k < |once| && once[k].id == id;
        }
      } else {
        assert (once + [item])[|once|] == item;
      }
    } else {
      ToggleTwiceRestores(list, item);
    }
  }

  /** Filtering one id out does not change whether another id occurs. */
  lemma WithoutKeepsOtherIds(list: seq<Content>, gone: Id, id: Id)
    requires id != gone
    ensures HasId(Without(list, ContentId, gone), ContentId, id) <==> HasId(list, ContentId, id)
  {
    var r := Without(list, ContentId, gone);
    WithoutMembers(list, ContentId, gone);
    if HasId(list, ContentId, id) {
      var i :| 0 <= i < |list| && list[i].id == id;
      assert list[i] in r;
      var j :| 0 <= j < |r| && r[j] == list[i];
    }
    if HasId(r, ContentId, id) {
      var j :| 0 <= j < |r| && r[j].id == id;
      assert r[j] in list;
      var i :| 0 <= i < |list| && list[i] == r[j];
    }
  }

  /** The toggle keeps the watchlist free of duplicate ids. */
  lemma ToggleUnique(list: seq<Content>, item: Content)
    requires UniqueIds(list, ContentId)
    ensures UniqueIds(Toggle(list, item), ContentId)
  {
    if HasId(list, ContentId, item.id) {
      WithoutUnique(list, ContentId, item.id);
    } else {
      var r := list + [item];
      forall i, j | 0 <= i < |r| && 0 <= j < |r| && i != j
        ensures ContentId(r[i]) != ContentId(r[j])
      {
        if i < |list| && j < |list| {
          assert r[i] == list[i] && r[j] == list[j];
        } else if i < |list| {
          assert r[i] == list[i];
        } else {
          assert r[j] == list[j];
        }
      }
    }
  }
}
