/** Content items, history records and the id-keyed list operations that the
    watchlist and history collections are built from. */
module Entries {

  datatype Option<+T> = None | Some(value: T)

  /** A content id as JavaScript sees it: catalogue data carries numeric ids,
      route parameters are strings, and `===` never equates the two kinds. */
  datatype Id = Num(n: int) | Str(s: string)

  /** A catalogue item. Only `id` and `numberOfSeasons` are read by the core;
      the rest of the payload is passed through untouched. */
  datatype Content = Content(id: Id, numberOfSeasons: Option<int>, details: map<string, string>)

  /** A watch-history record: the item spread into a new object with the last
      season, the last episode and the time it was recorded. */
  datatype HistoryRecord = HistoryRecord(content: Content, lastSeason: int, lastEpisode: int, lastUpdated: int)

  function ContentId(c: Content): Id { c.id }

  function RecordId(r: HistoryRecord): Id { r.content.id }

  /** `list.some(m => m.id === id)`: some entry carries `id`. */
  function HasId<T>(s: seq<T>, key: T -> Id, id: Id): (r: bool)
    ensures r <==> exists i :: 0 <= i < |s| && key(s[i]) == id
  {
    if s == [] then false
    else key(s[0]) == id || HasId(s[1..], key, id)
  }

  /** `list.findIndex(m => m.id === id)`: the first index carrying `id`, or -1. */
  function IndexOfId<T>(s: seq<T>, key: T -> Id, id: Id): (r: int)
    ensures -1 <= r < |s|
    ensures r == -1 <==> !HasId(s, key, id)
    ensures r >= 0 ==> key(s[r]) == id && forall j :: 0 <= j < r ==> key(s[j]) != id
  {
    if s == [] then -1
    else if key(s[0]) == id then 0
    else
      var k := IndexOfId(s[1..], key, id);
      if k == -1 then -1 else k + 1
  }

  /** `list.filter(m => m.id !== id)`: every entry not carrying `id`, in order. */
  function Without<T>(s: seq<T>, key: T -> Id, id: Id): (r: seq<T>)
    ensures |r| <= |s|
    ensures forall i :: 0 <= i < |r| ==> key(r[i]) != id
    ensures !HasId(s, key, id) ==> r == s
  {
    if s == [] then []
    else if key(s[0]) == id then Without(s[1..], key, id)
    else [s[0]] + Without(s[1..], key, id)
  }

  /** The entries `Without` keeps are exactly those of `s` not carrying `id`. */
  lemma {:induction false} WithoutMembers<T>(s: seq<T>, key: T -> Id, id: Id)
    ensures forall i :: 0 <= i < |Without(s, key, id)| ==> Without(s, key, id)[i] in s
    ensures forall i :: 0 <= i < |s| && key(s[i]) != id ==> s[i] in Without(s, key, id)
  {
    if s != [] {
      WithoutMembers(s[1..], key, id);
      var rest := Without(s[1..], key, id);
      forall i | 0 <= i < |s| && key(s[i]) != id ensures s[i] in Without(s, key, id) {
        if i > 0 {
          assert s[i] == s[1..][i - 1];
        }
      }
    }
  }

  /** No two entries share an id. */
  ghost predicate UniqueIds<T>(s: seq<T>, key: T -> Id)
  {
    forall i, j :: 0 <= i < |s| && 0 <= j < |s| && i != j ==> key(s[i]) != key(s[j])
  }

  /** Filtering commutes with concatenation: the kept entries of each part stay
      in their relative order. */
  lemma {:induction false} WithoutConcat<T>(a: seq<T>, b: seq<T>, key: T -> Id, id: Id)
    ensures Without(a + b, key, id) == Without(a, key, id) + Without(b, key, id)
  {
    if a == [] {
      assert a + b == b;
    } else {
      assert (a + b)[1..] == a[1..] + b;
      WithoutConcat(a[1..], b, key, id);
    }
  }

  /** Filtering an id out of a list without duplicate ids leaves it without
      duplicate ids. */
  lemma {:induction false} WithoutUnique<T>(s: seq<T>, key: T -> Id, id: Id)
    requires UniqueIds(s, key)
    ensures UniqueIds(Without(s, key, id), key)
  {
    if s != [] {
      assert UniqueIds(s[1..], key) by {
        forall i, j | 0 <= i < |s[1..]| && 0 <= j < |s[1..]| && i != j
          ensures key(s[1..][i]) != key(s[1..][j])
        {
          assert s[1..][i] == s[i + 1] && s[1..][j] == s[j + 1];
        }
      }
      WithoutUnique(s[1..], key, id);
      WithoutMembers(s[1..], key, id);
      var rest := Without(s[1..], key, id);
      if key(s[0]) != id {
        forall i | 0 <= i < |rest| ensures key(rest[i]) != key(s[0]) {
          var k :| 1 <= k < |s| && s[k] == rest[i];
        }
        var r := [s[0]] + rest;
        forall i, j | 0 <= i < |r| && 0 <= j < |r| && i != j
          ensures key(r[i]) != key(r[j])
        {
          if i > 0 && j > 0 {
            assert r[i] == rest[i - 1] && r[j] == rest[j - 1];
          } else if i == 0 {
            assert r[j] == rest[j - 1];
          } else {
            assert r[i] == rest[i - 1];
          }
        }
      }
    }
  }

  /** A prefix of a list without duplicate ids has none either. */
  lemma UniquePrefix<T>(s: seq<T>, key: T -> Id, n: nat)
    requires UniqueIds(s, key) && n <= |s|
    ensures UniqueIds(s[..n], key)
  {
    forall i, j | 0 <= i < n && 0 <= j < n && i != j
      ensures key(s[..n][i]) != key(s[..n][j])
    {
      assert s[..n][i] == s[i] && s[..n][j] == s[j];
    }
  }

  /** `list.slice(0, n)`: the first `n` entries, or all of them. */
  function Take<T>(s: seq<T>, n: nat): (r: seq<T>)
    ensures |r| == if |s| <= n then |s| else n
    ensures forall i :: 0 <= i < |r| ==> r[i] == s[i]
  {
    if |s| <= n then s else s[..n]
  }
}
