/**
 * List operations over entries that the view-model and the views share:
 * sorting by start time, replacing the first entry with a given id, and
 * removing every entry with a given id.
 */
module EntryLists {
  import opened Wrappers
  import opened RoosterEntries

  predicate SortedByStart(s: seq<Entry>) {
    forall i, j :: 0 <= i < j < |s| ==> s[i].startTime <= s[j].startTime
  }

  /** Every entry of `s` starts no earlier than `t`. */
  predicate StartsNoEarlier(s: seq<Entry>, t: int) {
    forall i :: 0 <= i < |s| ==> t <= s[i].startTime
  }

  lemma StartsNoEarlierMultiset(s: seq<Entry>, s': seq<Entry>, t: int)
    requires StartsNoEarlier(s, t) && multiset(s') <= multiset(s)
    ensures StartsNoEarlier(s', t)
  {
    forall i | 0 <= i < |s'|
      ensures t <= s'[i].startTime
    {
      assert s'[i] in multiset(s');
      assert s'[i] in multiset(s);
      var k :| 0 <= k < |s| && s[k] == s'[i];
    }
  }

  /** Insert `e` into a sorted list ahead of the first entry that does not start earlier. */
  function Insert(e: Entry, s: seq<Entry>): (r: seq<Entry>)
    requires SortedByStart(s)
    ensures SortedByStart(r)
    ensures multiset(r) == multiset(s) + multiset{e}
    ensures |r| == |s| + 1
  {
    if |s| == 0 || e.startTime <= s[0].startTime then
      [e] + s
    else
      var rest := Insert(e, s[1..]);
      assert s == [s[0]] + s[1..];
      StartsNoEarlierMultiset(s[1..] + [e], rest, s[0].startTime);
      [s[0]] + rest
  }

  /**
   * `sorted { $0.startTime < $1.startTime }`: a permutation of the input in
   * non-decreasing start order. Swift's sort is stable, and so is this
   * insertion sort; the contract does not state the order of entries with
   * equal start times.
   */
  function SortByStart(s: seq<Entry>): (r: seq<Entry>)
    ensures SortedByStart(r)
    ensures multiset(r) == multiset(s)
    ensures |r| == |s|
  {
    if |s| == 0 then []
    else
      assert s == [s[0]] + s[1..];
      Insert(s[0], SortByStart(s[1..]))
  }

  /** Sorting an already sorted list changes nothing. */
  lemma {:induction false} SortSortedIsIdentity(s: seq<Entry>)
    requires SortedByStart(s)
    ensures SortByStart(s) == s
  {
    if |s| > 0 {
      SortSortedIsIdentity(s[1..]);
    }
  }

  lemma SortIdempotent(s: seq<Entry>)
    ensures SortByStart(SortByStart(s)) == SortByStart(s)
  {
    SortSortedIsIdentity(SortByStart(s));
  }

  /** `firstIndex(where: { $0.id == id })` */
  function FirstIndexOf(s: seq<Entry>, id: string): (r: Option<nat>)
    ensures r.None? <==> id !in Ids(s)
    ensures r.Some? ==> r.value < |s| && s[r.value].id == id
    ensures r.Some? ==> forall j :: 0 <= j < r.value ==> s[j].id != id
  {
    if |s| == 0 then None
    else if s[0].id == id then Some(0)
    else
      match FirstIndexOf(s[1..], id)
      case None => None
      case Some(k) => Some(k + 1)
  }

  /**
   * `if let index = firstIndex(...) { s[index] = e }`: the first entry with
   * `e`'s id becomes `e`; with no such entry the list is unchanged.
   */
  function ReplaceFirstById(s: seq<Entry>, e: Entry): (r: seq<Entry>)
    ensures |r| == |s|
    ensures e.id !in Ids(s) ==> r == s
    ensures e.id in Ids(s) ==>
      exists i :: 0 <= i < |s| && s[i].id == e.id && r == s[i := e]
                  && forall j :: 0 <= j < i ==> s[j].id != e.id
  {
    match FirstIndexOf(s, e.id)
    case None => s
    case Some(i) => s[i := e]
  }

  /** `removeAll { $0.id == id }` */
  function RemoveAllById(s: seq<Entry>, id: string): (r: seq<Entry>)
    ensures id !in Ids(r)
    ensures forall x :: x in s && x.id != id ==> x in r
    ensures forall x :: x in r ==> x in s
    ensures |r| <= |s|
  {
    if |s| == 0 then []
    else if s[0].id == id then RemoveAllById(s[1..], id)
    else [s[0]] + RemoveAllById(s[1..], id)
  }

  /**
   * Exactly the entries with the id go: every other entry survives with all
   * its copies, as `removeAll(where:)` keeps every element it does not match.
   */
  lemma {:induction false} RemoveAllCounts(s: seq<Entry>, id: string)
    ensures forall x :: multiset(RemoveAllById(s, id))[x] == if x.id == id then 0 else multiset(s)[x]
  {
    if |s| > 0 {
      RemoveAllCounts(s[1..], id);
      assert s == [s[0]] + s[1..];
      assert multiset(s) == multiset{s[0]} + multiset(s[1..]);
    }
  }

  /** Removal works element by element: it distributes over concatenation. */
  lemma {:induction false} RemoveAllConcat(a: seq<Entry>, b: seq<Entry>, id: string)
    ensures RemoveAllById(a + b, id) == RemoveAllById(a, id) + RemoveAllById(b, id)
  {
    if |a| > 0 {
      assert (a + b)[1..] == a[1..] + b;
      RemoveAllConcat(a[1..], b, id);
    } else {
      assert a + b == b;
    }
  }

  /** A list with no entry of that id is returned unchanged. */
  lemma {:induction false} RemoveAllAbsent(s: seq<Entry>, id: string)
    requires id !in Ids(s)
    ensures RemoveAllById(s, id) == s
  {
    if |s| > 0 {
      assert id !in Ids(s[1..]) by {
        forall k | 0 <= k < |s[1..]|
          ensures s[1..][k].id != id
        {
          assert s[1..][k] == s[k + 1];
        }
      }
      RemoveAllAbsent(s[1..], id);
    }
  }

  /** `a` is `b` with some elements left out, the rest in their original order. */
  predicate IsSubsequence(a: seq<Entry>, b: seq<Entry>)
    decreases |b|
  {
    if |a| == 0 then true
    else if |b| == 0 then false
    else (a[0] == b[0] && IsSubsequence(a[1..], b[1..])) || IsSubsequence(a, b[1..])
  }

  /** The entries that survive a removal keep their relative order. */
  lemma {:induction false} RemoveAllIsSubsequence(s: seq<Entry>, id: string)
    ensures IsSubsequence(RemoveAllById(s, id), s)
  {
    if |s| > 0 {
      RemoveAllIsSubsequence(s[1..], id);
      var r := RemoveAllById(s, id);
      if s[0].id != id {
        assert r[0] == s[0] && r[1..] == RemoveAllById(s[1..], id);
      }
    }
  }

  /** Removing from a list with unique ids keeps the ids unique. */
  lemma {:induction false} RemoveAllKeepsUnique(s: seq<Entry>, id: string)
    requires UniqueIds(s)
    ensures UniqueIds(RemoveAllById(s, id))
  {
    if |s| > 0 {
      assert UniqueIds(s[1..]) by {
        forall i, j | 0 <= i < j < |s| - 1
          ensures s[1..][i].id != s[1..][j].id
        {
          assert s[1..][i] == s[i + 1] && s[1..][j] == s[j + 1];
        }
      }
      RemoveAllKeepsUnique(s[1..], id);
      if s[0].id != id {
        var rest := RemoveAllById(s[1..], id);
        assert s[0].id !in Ids(rest) by {
          forall x | x in rest
            ensures x.id != s[0].id
          {
            var k :| 0 <= k < |s[1..]| && s[1..][k] == x;
            assert s[k + 1] == x;
          }
        }
      }
    }
  }
}
