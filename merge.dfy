/** The login merge: a remote list is folded into a local one, local entries
    first and unchanged, then the remote entries whose id the local list does
    not have, in remote order. The same routine serves the watchlist and the
    history. */
module Merge {
  import opened Entries

  /** `new Set(list.map(m => m.id))`. */
  function IdSet<T>(s: seq<T>, key: T -> Id): (ids: set<Id>)
    ensures forall id :: id in ids <==> HasId(s, key, id)
  {
    set i | 0 <= i < |s| :: key(s[i])
  }

  /** The entries of `remote` whose id is not in `known`, in remote order. */
  function RemoteOnly<T>(remote: seq<T>, known: set<Id>, key: T -> Id): (r: seq<T>)
    ensures |r| <= |remote|
    ensures forall i :: 0 <= i < |r| ==> key(r[i]) !in known
  {
    if remote == [] then []
    else
      var last := remote[|remote| - 1];
      RemoteOnly(remote[..|remote| - 1], known, key) + (if key(last) in known then [] else [last])
  }

  /** The list the merge produces. */
  ghost function Merged<T>(local: seq<T>, remote: seq<T>, key: T -> Id): seq<T>
  {
    local + RemoteOnly(remote, IdSet(local, key), key)
  }

  /** The `setWatchlist(prev => ...)` / `setHistory(prev => ...)` updater of
      the login sync: copy the local list, then push every remote entry whose
      id the local list lacks. */
  method MergeById<T>(local: seq<T>, remote: seq<T>, key: T -> Id) returns (merged: seq<T>)
    ensures merged == Merged(local, remote, key)
  {
    var localIds := IdSet(local, key);
    merged := local;
    var i := 0;
    while i < |remote|
      invariant 0 <= i <= |remote|
      invariant merged == local + RemoteOnly(remote[..i], localIds, key)
    {
      assert remote[..i + 1][..i] == remote[..i];
      if key(remote[i]) !in localIds {
        merged := merged + [remote[i]];
      }
      i := i + 1;
    }
    assert remote[..|remote|] == remote;
  }

  /** An entry is appended exactly when it is a remote entry whose id is not
      known. */
  lemma {:induction false} RemoteOnlyMembers<T>(remote: seq<T>, known: set<Id>, key: T -> Id)
    ensures forall i :: 0 <= i < |RemoteOnly(remote, known, key)| ==> RemoteOnly(remote, known, key)[i] in remote
    ensures forall i :: 0 <= i < |remote| && key(remote[i]) !in known ==> remote[i] in RemoteOnly(remote, known, key)
  {
    if remote != [] {
      var front := remote[..|remote| - 1];
      RemoteOnlyMembers(front, known, key);
      var r := RemoteOnly(remote, known, key);
      var rf := RemoteOnly(front, known, key);
      forall i | 0 <= i < |r| ensures r[i] in remote {
        if i < |rf| {
          assert r[i] == rf[i];
          var k :| 0 <= k < |front| && front[k] == rf[i];
          assert remote[k] == front[k];
        } else {
          assert r[i] == remote[|remote| - 1];
        }
      }
      forall i | 0 <= i < |remote| && key(remote[i]) !in known ensures remote[i] in r {
        if i < |front| {
          assert remote[i] == front[i];
          var k :| 0 <= k < |rf| && rf[k] == front[i];
          assert r[k] == rf[k];
        } else {
          assert r[|r| - 1] == remote[i];
        }
      }
    }
  }

  /** Appending keeps relative order: the remote-only entries of two pieces
      are those of the first followed by those of the second. */
  lemma {:induction false} RemoteOnlyConcat<T>(a: seq<T>, b: seq<T>, known: set<Id>, key: T -> Id)
    ensures RemoteOnly(a + b, known, key) == RemoteOnly(a, known, key) + RemoteOnly(b, known, key)
    decreases |b|
  {
    if b == [] {
      assert a + b == a;
    } else {
      var b' := b[..|b| - 1];
      assert (a + b)[..|a + b| - 1] == a + b';
      assert (a + b)[|a + b| - 1] == b[|b| - 1];
      RemoteOnlyConcat(a, b', known, key);
    }
  }

  /** When every remote id is known, nothing is appended. */
  lemma {:induction false} RemoteOnlyAllKnown<T>(remote: seq<T>, known: set<Id>, key: T -> Id)
    requires forall i :: 0 <= i < |remote| ==> key(remote[i]) in known
    ensures RemoteOnly(remote, known, key) == []
  {
    if remote != [] {
      RemoteOnlyAllKnown(remote[..|remote| - 1], known, key);
    }
  }

  /** With nothing known, every remote entry is appended. */
  lemma {:induction false} RemoteOnlyNoneKnown<T>(remote: seq<T>, key: T -> Id)
    ensures RemoteOnly(remote, {}, key) == remote
  {
    if remote != [] {
      RemoteOnlyNoneKnown(remote[..|remote| - 1], key);
      assert remote[..|remote| - 1] + [remote[|remote| - 1]] == remote;
    }
  }

  /** The local list is a prefix of the result, and the rest is made of remote
      entries with new ids. */
  lemma MergeShape<T>(local: seq<T>, remote: seq<T>, key: T -> Id)
    ensures |Merged(local, remote, key)| >= |local|
    ensures Merged(local, remote, key)[..|local|] == local
    ensures forall i :: |local| <= i < |Merged(local, remote, key)| ==>
      Merged(local, remote, key)[i] in remote && !HasId(local, key, key(Merged(local, remote, key)[i]))
    ensures forall i :: 0 <= i < |remote| && !HasId(local, key, key(remote[i])) ==>
      remote[i] in Merged(local, remote, key)[|local|..]
  {
    var added := RemoteOnly(remote, IdSet(local, key), key);
    RemoteOnlyMembers(remote, IdSet(local, key), key);
    var m := Merged(local, remote, key);
    assert m[|local|..] == added;
    forall i | |local| <= i < |m|
      ensures m[i] in remote && !HasId(local, key, key(m[i]))
    {
      assert m[i] == added[i - |local|];
    }
  }

  /** Appended entries keep their remote order: two remote entries with new
      ids, the first before the second in the remote list, appear in the
      result in that order. */
  lemma MergeKeepsRemoteOrder<T>(local: seq<T>, remote: seq<T>, key: T -> Id, i: int, j: int)
    requires 0 <= i < j < |remote|
    requires !HasId(local, key, key(remote[i])) && !HasId(local, key, key(remote[j]))
    ensures exists p, q :: (0 <= p < q < |Merged(local, remote, key)|
      && Merged(local, remote, key)[p] == remote[i] && Merged(local, remote, key)[q] == remote[j])
  {
    var added := RemoteOnly(remote, IdSet(local, key), key);
    var p, q := RemoteOnlyKeepsOrder(remote, IdSet(local, key), key, i, j);
    var m := Merged(local, remote, key);
    assert m[|local| + p] == added[p] && m[|local| + q] == added[q];
  }

  /** The positions, among the appended entries, of two remote entries with
      unknown ids keep their order. */
  lemma RemoteOnlyKeepsOrder<T>(remote: seq<T>, known: set<Id>, key: T -> Id, i: int, j: int)
      returns (p: int, q: int)
    requires 0 <= i < j < |remote|
    requires key(remote[i]) !in known && key(remote[j]) !in known
    ensures 0 <= p < q < |RemoteOnly(remote, known, key)|
    ensures RemoteOnly(remote, known, key)[p] == remote[i] && RemoteOnly(remote, known, key)[q] == remote[j]
  {
    var front, back := remote[..j], remote[j..];
    assert remote == front + back;
    RemoteOnlyConcat(front, back, known, key);
    var rf := RemoteOnly(front, known, key);
    RemoteOnlyMembers(front, known, key);
    assert front[i] == remote[i];
    p :| 0 <= p < |rf| && rf[p] == remote[i];
    RemoteOnlyHead(back, known, key);
    q := |rf|;
  }

  /** A list whose first entry has an unknown id keeps that entry first. */
  lemma RemoteOnlyHead<T>(remote: seq<T>, known: set<Id>, key: T -> Id)
    requires remote != [] && key(remote[0]) !in known
    ensures RemoteOnly(remote, known, key) != [] && RemoteOnly(remote, known, key)[0] == remote[0]
  {
    assert remote == [remote[0]] + remote[1..];
    RemoteOnlyConcat([remote[0]], remote[1..], known, key);
    assert [remote[0]][..0] == [];
  }

  /** Merging the same remote list a second time adds nothing. */
  lemma MergeIdempotent<T>(local: seq<T>, remote: seq<T>, key: T -> Id)
    ensures Merged(Merged(local, remote, key), remote, key) == Merged(local, remote, key)
  {
    var m := Merged(local, remote, key);
    var added := RemoteOnly(remote, IdSet(local, key), key);
    RemoteOnlyMembers(remote, IdSet(local, key), key);
    forall i | 0 <= i < |remote| ensures key(remote[i]) in IdSet(m, key) {
      if HasId(local, key, key(remote[i])) {
        var k :| 0 <= k < |local| && key(local[k]) == key(remote[i]);
        assert m[k] == local[k];
      } else {
        var k :| 0 <= k < |added| && added[k] == remote[i];
        assert m[|local| + k] == added[k];
      }
    }
    RemoteOnlyAllKnown(remote, IdSet(m, key), key);
  }

  /** An empty local list takes the remote list as it is. */
  lemma MergeIntoEmpty<T>(remote: seq<T>, key: T -> Id)
    ensures Merged([], remote, key) == remote
  {
    assert IdSet([], key) == {};
    RemoteOnlyNoneKnown(remote, key);
  }

  /** Two lists without duplicate ids merge into one without duplicate ids. */
  lemma MergeUnique<T>(local: seq<T>, remote: seq<T>, key: T -> Id)
    requires UniqueIds(local, key) && UniqueIds(remote, key)
    ensures UniqueIds(Merged(local, remote, key), key)
  {
    var known := IdSet(local, key);
    var added := RemoteOnly(remote, known, key);
    RemoteOnlyUnique(remote, known, key);
    var m := Merged(local, remote, key);
    forall i, j | 0 <= i < |m| && 0 <= j < |m| && i != j
      ensures key(m[i]) != key(m[j])
    {
      if i < |local| && j < |local| {
        assert m[i] == local[i] && m[j] == local[j];
      } else if i >= |local| && j >= |local| {
        assert m[i] == added[i - |local|] && m[j] == added[j - |local|];
      } else if i < |local| {
        assert m[i] == local[i] && m[j] == added[j - |local|];
        assert key(local[i]) in known;
      } else {
        assert m[j] == local[j] && m[i] == added[i - |local|];
        assert key(local[j]) in known;
      }
    }
  }

  /** The remote-only part of a list without duplicate ids has none either. */
  lemma {:induction false} RemoteOnlyUnique<T>(remote: seq<T>, known: set<Id>, key: T -> Id)
    requires UniqueIds(remote, key)
    ensures UniqueIds(RemoteOnly(remote, known, key), key)
  {
    if remote != [] {
      var front := remote[..|remote| - 1];
      var last := remote[|remote| - 1];
      UniquePrefix(remote, key, |remote| - 1);
      RemoteOnlyUnique(front, known, key);
      RemoteOnlyMembers(front, known, key);
      var rf := RemoteOnly(front, known, key);
      if key(last) !in known {
        var r := rf + [last];
        forall i | 0 <= i < |rf| ensures key(rf[i]) != key(last) {
          var k :| 0 <= k < |front| && front[k] == rf[i];
          assert remote[k] == front[k];
        }
        forall i, j | 0 <= i < |r| && 0 <= j < |r| && i != j
          ensures key(r[i]) != key(r[j])
        {
          if i < |rf| && j < |rf| {
            assert r[i] == rf[i] && r[j] == rf[j];
          } else if i < |rf| {
            assert r[i] == rf[i] && r[j] == last;
          } else {
            assert r[j] == rf[j] && r[i] == last;
          }
        }
      }
    }
  }

  /** Duplicates inside the remote list are not removed: merging `[c, c]`
      into an empty list gives two entries with the same id. */
  lemma MergeKeepsRemoteDuplicates<T>(c: T, key: T -> Id)
    ensures Merged([], [c, c], key) == [c, c]
    ensures !UniqueIds(Merged([], [c, c], key), key)
  {
    MergeIntoEmpty([c, c], key);
    assert [c, c][0] == [c, c][1];
  }

  /** The merge does not cut a history to fifty records: fifty local records
      and one remote record with a new id give fifty-one. */
  lemma MergeCanExceedCap<T>(local: seq<T>, x: T, key: T -> Id)
    requires |local| == 50 && !HasId(local, key, key(x))
    ensures |Merged(local, [x], key)| == 51
  {
    assert [x][..0] == [];
  }
}
