/**
 * The `lands` list of a People record is an array used as a set: membership is
 * tested with `includes`, a land is appended with `push` and removed with
 * `splice` at the index `findIndex` returns (src/mapping.ts:26-38).
 * This module states what those list operations do to the list value.
 */
module LandLists {
  import opened Wrappers

  /** No value occurs twice: the list behaves as a set. */
  predicate NoDup<T(==)>(s: seq<T>)
  {
    forall i, j :: 0 <= i < j < |s| ==> s[i] != s[j]
  }

  /**
   * `findIndex(item => item === x)`: the first position holding `x`, or -1.
   * `===` is read as value equality, the same test `includes` makes.
   */
  function IndexOf<T(==)>(s: seq<T>, x: T): (i: int)
    ensures -1 <= i < |s|
    ensures i < 0 <==> x !in s
    ensures 0 <= i ==> s[i] == x && x !in s[..i]
  {
    if |s| == 0 then -1
    else if s[0] == x then 0
    else
      var j := IndexOf(s[1..], x);
      if j < 0 then -1
      else
        assert s[..j + 1] == [s[0]] + s[1..][..j];
        j + 1
  }

  /** The list after `if (!lands.includes(id)) lands.push(id)`. */
  function AddLand<T(==,!new)>(lands: seq<T>, id: T): (r: seq<T>)
    ensures id in r
    ensures id in lands ==> r == lands
    ensures id !in lands ==> |r| == |lands| + 1 && r[..|lands|] == lands && r[|lands|] == id
    ensures forall y :: y in r <==> y in lands || y == id
    ensures NoDup(lands) ==> NoDup(r)
  {
    if id in lands then lands else lands + [id]
  }

  /** The list after `if (lands.includes(id)) lands.splice(lands.findIndex(..), 1)`. */
  function RemoveLand<T(==)>(lands: seq<T>, id: T): (r: seq<T>)
    ensures id !in lands ==> r == lands
    ensures id in lands ==> |r| == |lands| - 1
  {
    if id in lands then
      var i := IndexOf(lands, id);
      lands[..i] + lands[i + 1..]
    else
      lands
  }

  /** Removal takes out the first occurrence and keeps the other entries in their order. */
  lemma RemoveLandOrder<T>(lands: seq<T>, id: T)
    requires id in lands
    ensures var r, i := RemoveLand(lands, id), IndexOf(lands, id);
      r[..i] == lands[..i] && r[i..] == lands[i + 1..]
  {
  }

  /** Removal takes away exactly one occurrence of `id` when there is one, and nothing else. */
  lemma RemoveLandMultiset<T>(lands: seq<T>, id: T)
    ensures multiset(RemoveLand(lands, id)) == multiset(lands) - multiset{id}
  {
    if id in lands {
      var i := IndexOf(lands, id);
      var before, after := lands[..i], lands[i + 1..];
      assert lands == before + [id] + after;
      assert multiset(lands) == multiset(before) + multiset{id} + multiset(after);
    } else {
      assert multiset(lands)[id] == 0;
      assert multiset(lands) - multiset{id} == multiset(lands);
    }
  }

  /** Every other value keeps its membership. */
  lemma RemoveLandKeepsOthers<T>(lands: seq<T>, id: T, y: T)
    requires y != id
    ensures y in RemoveLand(lands, id) <==> y in lands
  {
    RemoveLandMultiset(lands, id);
    assert y in RemoveLand(lands, id) <==> multiset(RemoveLand(lands, id))[y] > 0;
  }

  /** Dropping one entry of a duplicate-free list leaves it duplicate-free and without that entry. */
  lemma DropNoDup<T>(a: seq<T>, x: T, b: seq<T>)
    requires NoDup(a + [x] + b)
    ensures NoDup(a + b) && x !in a + b
  {
    var s, r := a + [x] + b, a + b;
    forall j, k | 0 <= j < k < |r|
      ensures r[j] != r[k]
    {
      var j', k' := if j < |a| then j else j + 1, if k < |a| then k else k + 1;
      assert r[j] == s[j'] && r[k] == s[k'];
    }
    forall k | 0 <= k < |r|
      ensures r[k] != x
    {
      var k' := if k < |a| then k else k + 1;
      assert r[k] == s[k'] && s[|a|] == x;
    }
  }

  /** On a duplicate-free list, removal leaves it duplicate-free and without `id`. */
  lemma RemoveLandNoDup<T>(lands: seq<T>, id: T)
    requires NoDup(lands)
    ensures NoDup(RemoveLand(lands, id)) && id !in RemoveLand(lands, id)
  {
    if id in lands {
      var i := IndexOf(lands, id);
      assert lands == lands[..i] + [id] + lands[i + 1..];
      DropNoDup(lands[..i], id, lands[i + 1..]);
    }
  }

  /** `filter((n) => n !== null)`: the present entries, in order. */
  function Present<T(==,!new)>(ns: seq<Option<T>>): (r: seq<T>)
    ensures |r| <= |ns|
    ensures forall v :: v in r <==> Some(v) in ns
  {
    if |ns| == 0 then []
    else
      var rest := Present(ns[1..]);
      assert ns == [ns[0]] + ns[1..];
      if ns[0].Some? then [ns[0].value] + rest else rest
  }

  /** A present entry is kept as it is, a null one is dropped. */
  lemma PresentSingleton<T(!new)>(v: T)
    ensures Present([Some(v)]) == [v]
    ensures Present<T>([None]) == []
  {
    assert [Some(v)][1..] == [];
    var none: seq<Option<T>> := [None];
    assert none[1..] == [];
  }

  /** Filtering keeps order and repeats: it distributes over concatenation. */
  lemma {:induction false} PresentAppend<T(!new)>(a: seq<Option<T>>, b: seq<Option<T>>)
    ensures Present(a + b) == Present(a) + Present(b)
  {
    if |a| > 0 {
      assert (a + b)[1..] == a[1..] + b;
      PresentAppend(a[1..], b);
    } else {
      assert a + b == b;
    }
  }
}
