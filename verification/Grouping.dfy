/** Grouping a list of indices by a key, as the dictionaries of index lists do. */
module Grouping {
  import opened Sequences

  /** The listed indices whose key is k, in order. */
  function Pick(idxs: seq<nat>, keys: seq<int>, k: int): seq<nat>
    requires forall i :: 0 <= i < |idxs| ==> idxs[i] < |keys|
  {
    if idxs == [] then []
    else (if keys[idxs[0]] == k then [idxs[0]] else []) + Pick(idxs[1..], keys, k)
  }

  lemma {:induction false} PickAre(idxs: seq<nat>, keys: seq<int>, k: int)
    requires Indices(idxs, |keys|)
    ensures forall i :: 0 <= i < |Pick(idxs, keys, k)| ==>
              Pick(idxs, keys, k)[i] < |keys| && keys[Pick(idxs, keys, k)[i]] == k && Pick(idxs, keys, k)[i] in idxs
  {
    if idxs == [] {
    } else {
      PickAre(idxs[1..], keys, k);
    }
  }

  lemma {:induction false} PickHas(idxs: seq<nat>, keys: seq<int>, i: nat)
    requires Indices(idxs, |keys|) && i < |idxs|
    ensures idxs[i] in Pick(idxs, keys, keys[idxs[i]])
  {
    if i == 0 {
    } else {
      PickHas(idxs[1..], keys, i - 1);
    }
  }

  function KeysOf(idxs: seq<nat>, keys: seq<int>): set<int>
    requires forall i :: 0 <= i < |idxs| ==> idxs[i] < |keys|
  {
    set i | 0 <= i < |idxs| :: keys[idxs[i]]
  }

  lemma KeysHead(idxs: seq<nat>, keys: seq<int>)
    requires Indices(idxs, |keys|) && idxs != []
    ensures KeysOf(idxs, keys) == {keys[idxs[0]]} + KeysOf(idxs[1..], keys)
  {
    forall x | x in KeysOf(idxs, keys) ensures x in {keys[idxs[0]]} + KeysOf(idxs[1..], keys) {
      var i :| 0 <= i < |idxs| && keys[idxs[i]] == x;
      if i > 0 { assert idxs[1..][i - 1] == idxs[i]; }
    }
    forall x | x in KeysOf(idxs[1..], keys) ensures x in KeysOf(idxs, keys) {
      var i :| 0 <= i < |idxs[1..]| && keys[idxs[1..][i]] == x;
      assert idxs[i + 1] == idxs[1..][i];
    }
  }

  lemma KeysOfNone(keys: seq<int>)
    ensures KeysOf([], keys) == {}
  {
  }

  lemma PickCons(i: nat, rest: seq<nat>, keys: seq<int>, k: int)
    requires i < |keys| && Indices(rest, |keys|)
    ensures Pick([i] + rest, keys, k) == (if keys[i] == k then [i] else []) + Pick(rest, keys, k)
  {
    assert ([i] + rest)[1..] == rest;
  }

  lemma PickOne(i: nat, keys: seq<int>, k: int)
    requires i < |keys|
    ensures Pick([i], keys, k) == if keys[i] == k then [i] else []
  {
    PickCons(i, [], keys, k);
    assert [i] + [] == [i];
  }

  lemma PickFirst(x: nat, rest: seq<nat>, tail: seq<nat>, keys: seq<int>, k: int, one: seq<nat>)
    requires x < |keys| && Indices(rest, |keys|) && Indices(tail, |keys|)
    requires Pick(rest, keys, k) == Pick(tail, keys, k) + one
    ensures Pick([x] + rest, keys, k) == Pick([x] + tail, keys, k) + one
  {
    hide Pick;
    PickCons(x, rest, keys, k);
    PickCons(x, tail, keys, k);
    var head := if keys[x] == k then [x] else [];
    assert head + (Pick(tail, keys, k) + one) == head + Pick(tail, keys, k) + one;
  }

  lemma {:induction false} PickAppend(idxs: seq<nat>, i: nat, keys: seq<int>, k: int)
    requires Indices(idxs, |keys|) && i < |keys|
    ensures Pick(idxs + [i], keys, k) == Pick(idxs, keys, k) + Pick([i], keys, k)
  {
    var one := Pick([i], keys, k);
    if idxs == [] {
      assert [] + [i] == [i] && [] + one == one;
    } else {
      var rest := idxs[1..] + [i];
      assert idxs + [i] == [idxs[0]] + rest && idxs == [idxs[0]] + idxs[1..];
      assert Indices(rest, |keys|);
      PickAppend(idxs[1..], i, keys, k);
      PickFirst(idxs[0], rest, idxs[1..], keys, k, one);
    }
  }

  lemma KeysAppend(idxs: seq<nat>, i: nat, keys: seq<int>)
    requires Indices(idxs, |keys|) && i < |keys|
    ensures KeysOf(idxs + [i], keys) == KeysOf(idxs, keys) + {keys[i]}
  {
    forall x | x in KeysOf(idxs, keys) ensures x in KeysOf(idxs + [i], keys) {
      var j :| 0 <= j < |idxs| && keys[idxs[j]] == x;
      assert (idxs + [i])[j] == idxs[j];
    }
    assert (idxs + [i])[|idxs|] == i;
    forall x | x in KeysOf(idxs + [i], keys) ensures x in KeysOf(idxs, keys) + {keys[i]} {
      var j :| 0 <= j < |idxs + [i]| && keys[(idxs + [i])[j]] == x;
      if j < |idxs| { assert (idxs + [i])[j] == idxs[j]; }
    }
  }

  lemma {:induction false} PickNone(idxs: seq<nat>, keys: seq<int>, k: int)
    requires Indices(idxs, |keys|) && k !in KeysOf(idxs, keys)
    ensures Pick(idxs, keys, k) == []
  {
    if idxs == [] {
    } else {
      KeysHead(idxs, keys);
      PickNone(idxs[1..], keys, k);
    }
  }

  ghost predicate Increasing(idxs: seq<nat>) {
    forall i, j :: 0 <= i < j < |idxs| ==> idxs[i] < idxs[j]
  }

  lemma {:induction false} PickIncreasing(idxs: seq<nat>, keys: seq<int>, k: int)
    requires Indices(idxs, |keys|) && Increasing(idxs)
    ensures Increasing(Pick(idxs, keys, k))
  {
    if idxs == [] {
    } else {
      PickIncreasing(idxs[1..], keys, k);
      var rest := Pick(idxs[1..], keys, k);
      assert [] + rest == rest;
      PickAbove(idxs, keys, k);
      IncreasingCons(idxs[0], rest);
    }
  }

  lemma PickAbove(idxs: seq<nat>, keys: seq<int>, k: int)
    requires Indices(idxs, |keys|) && Increasing(idxs) && idxs != []
    ensures forall i :: 0 <= i < |Pick(idxs[1..], keys, k)| ==> idxs[0] < Pick(idxs[1..], keys, k)[i]
  {
    hide Pick;
    var tail := idxs[1..];
    PickAre(tail, keys, k);
    var rest := Pick(tail, keys, k);
    forall i | 0 <= i < |rest| ensures idxs[0] < rest[i] {
      assert rest[i] in tail;
      var j :| 0 <= j < |tail| && tail[j] == rest[i];
      assert tail[j] == idxs[j + 1];
    }
  }

  lemma IncreasingCons(x: nat, rest: seq<nat>)
    requires Increasing(rest) && forall i :: 0 <= i < |rest| ==> x < rest[i]
    ensures Increasing([x] + rest)
  {
  }

  lemma PickIff(idxs: seq<nat>, keys: seq<int>, k: int, i: nat)
    requires Indices(idxs, |keys|) && i < |keys|
    ensures i in Pick(idxs, keys, k) <==> i in idxs && keys[i] == k
  {
    PickAre(idxs, keys, k);
    if i in idxs && keys[i] == k {
      var m :| 0 <= m < |idxs| && idxs[m] == i;
      PickHas(idxs, keys, m);
    }
  }
}
