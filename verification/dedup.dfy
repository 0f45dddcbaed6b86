/** Duplicate detection as the validators do it: a `seen` set and a
    `duplicate` set updated record by record. Each record contributes an
    optional key (`None` when the field is skipped). */
module Dedup {
  import opened Wrappers

  /** The `seen` set after the first `n` records. */
  function Seen<K>(keys: seq<Option<K>>, n: nat): set<K>
    requires n <= |keys|
  {
    if n == 0 then {}
    else Seen(keys, n - 1) + (if keys[n - 1].Some? then {keys[n - 1].value} else {})
  }

  /** The `duplicate` set after the first `n` records: a key joins it when
      it arrives while already seen. */
  function Repeated<K>(keys: seq<Option<K>>, n: nat): set<K>
    requires n <= |keys|
  {
    if n == 0 then {}
    else
      var last := keys[n - 1];
      Repeated(keys, n - 1) + (if last.Some? && last.value in Seen(keys, n - 1) then {last.value} else {})
  }

  /** A key is seen exactly when some record carries it. */
  lemma {:induction false} SeenIff<K>(keys: seq<Option<K>>, n: nat, k: K)
    requires n <= |keys|
    ensures k in Seen(keys, n) <==> exists i :: 0 <= i < n && keys[i] == Some(k)
  {
    if n > 0 {
      SeenIff(keys, n - 1, k);
      if keys[n - 1] == Some(k) {
        assert 0 <= n - 1 < n && keys[n - 1] == Some(k);
      }
    }
  }

  /** `duplicate` holds the distinct values carried by two or more records,
      so its size counts values, not repeated occurrences. */
  lemma {:induction false} RepeatedIff<K>(keys: seq<Option<K>>, n: nat, k: K)
    requires n <= |keys|
    ensures k in Repeated(keys, n) <==>
      exists i, j :: 0 <= i < j < n && keys[i] == Some(k) && keys[j] == Some(k)
  {
    if n > 0 {
      RepeatedIff(keys, n - 1, k);
      SeenIff(keys, n - 1, k);
      if k in Repeated(keys, n) && k !in Repeated(keys, n - 1) {
        var i :| 0 <= i < n - 1 && keys[i] == Some(k);
        assert 0 <= i < n - 1 < n && keys[i] == Some(k) && keys[n - 1] == Some(k);
      }
      if exists i, j :: 0 <= i < j < n && keys[i] == Some(k) && keys[j] == Some(k) {
        var i, j :| 0 <= i < j < n && keys[i] == Some(k) && keys[j] == Some(k);
        if j == n - 1 {
          assert 0 <= i < n - 1 && keys[i] == Some(k);
        }
      }
    }
  }

  /** The keys two or more records carry, defined directly. */
  function Shared<K>(keys: seq<Option<K>>): set<K>
  {
    set i, j | 0 <= i < j < |keys| && keys[i].Some? && keys[j] == keys[i] :: keys[i].value
  }

  /** After all records, the `duplicate` set holds exactly the shared keys. */
  lemma RepeatedIsShared<K>(keys: seq<Option<K>>)
    ensures Repeated(keys, |keys|) == Shared(keys)
  {
    forall k | k in Repeated(keys, |keys|)
      ensures k in Shared(keys)
    {
      RepeatedIff(keys, |keys|, k);
      var i, j :| 0 <= i < j < |keys| && keys[i] == Some(k) && keys[j] == Some(k);
      assert keys[i].Some? && keys[j] == keys[i] && keys[i].value == k;
    }
    forall k | k in Shared(keys)
      ensures k in Repeated(keys, |keys|)
    {
      RepeatedIff(keys, |keys|, k);
    }
  }

  /** Three records sharing one key give one duplicate value, not two. */
  lemma ThreeCopiesOneDuplicate<K>(k: K)
    ensures Repeated([Some(k), Some(k), Some(k)], 3) == {k}
  {
    var keys := [Some(k), Some(k), Some(k)];
    assert Seen(keys, 1) == {k};
    assert Repeated(keys, 1) == {};
    assert Repeated(keys, 2) == {k};
  }
}
