/** The order in which a JavaScript object enumerates its own string keys
    (`Object.entries`, `Object.keys`, `for ... in`), as the OrdinaryOwnPropertyKeys
    operation of the ECMAScript language specification fixes it: every key that is an
    array index first, in ascending numeric order, then every other key in the order it
    was first added. The craft list and `toCraftAggregated` are such objects, so this
    order decides which entry is expanded first and in which order steps are built. */
module Keys {
  predicate Distinct<T(==)>(s: seq<T>) {
    forall i, j :: 0 <= i < j < |s| ==> s[i] != s[j]
  }

  predicate IsDigit(c: char) {
    '0' <= c <= '9'
  }

  predicate AllDigits(s: string) {
    forall i :: 0 <= i < |s| ==> IsDigit(s[i])
  }

  /** The number a string of decimal digits spells. */
  function DigitsValue(s: string): nat
    requires AllDigits(s)
  {
    if |s| == 0 then 0 else 10 * DigitsValue(s[..|s| - 1]) + (s[|s| - 1] as int - '0' as int)
  }

  /** Array indices are the integers below 2^32 - 1. */
  const IndexLimit: nat := 0xFFFF_FFFF

  /** An array index: the canonical decimal spelling of an integer below 2^32 - 1 --
      digits only, no sign, and no leading zero unless the key is "0" itself. */
  predicate IsIndexKey(k: string) {
    && 0 < |k|
    && AllDigits(k)
    && (k[0] == '0' ==> |k| == 1)
    && DigitsValue(k) < IndexLimit
  }

  /** `keys` is in enumeration order: no array index follows a key that is not one, and
      the array indices ascend. */
  predicate KeyOrdered(keys: seq<string>) {
    forall i, j :: 0 <= i < j < |keys| && IsIndexKey(keys[j]) ==>
      IsIndexKey(keys[i]) && DigitsValue(keys[i]) <= DigitsValue(keys[j])
  }

  /** The number of leading array indices of `keys` below the index `k`. */
  function IndexPos(keys: seq<string>, k: string): (p: nat)
    requires IsIndexKey(k)
    ensures p <= |keys|
    ensures forall i :: 0 <= i < p ==> IsIndexKey(keys[i]) && DigitsValue(keys[i]) < DigitsValue(k)
    ensures p < |keys| ==> !IsIndexKey(keys[p]) || DigitsValue(k) <= DigitsValue(keys[p])
  {
    if |keys| == 0 || !IsIndexKey(keys[0]) || DigitsValue(k) <= DigitsValue(keys[0]) then 0
    else 1 + IndexPos(keys[1..], k)
  }

  /** Where a new key lands: among the array indices by value when it is one, after
      every existing key otherwise. */
  function KeyPos(keys: seq<string>, k: string): (p: nat)
    ensures p <= |keys|
  {
    if IsIndexKey(k) then IndexPos(keys, k) else |keys|
  }

  /** The keys after a property named `k` is added to an object that did not have it. */
  function InsertKey(keys: seq<string>, k: string): (r: seq<string>)
    ensures |r| == |keys| + 1
    ensures multiset(r) == multiset(keys) + multiset{k}
    ensures !IsIndexKey(k) ==> r == keys + [k]
  {
    var p := KeyPos(keys, k);
    assert keys == keys[..p] + keys[p..];
    keys[..p] + [k] + keys[p..]
  }

  /** `keys` with `k` taken out, every other key in its place relative to the rest. This
      is what deleting a property does to the enumeration order. */
  function Without(keys: seq<string>, k: string): (r: seq<string>)
    ensures |r| <= |keys|
    ensures forall x :: x in r <==> x in keys && x != k
  {
    if |keys| == 0 then []
    else if keys[0] == k then Without(keys[1..], k)
    else [keys[0]] + Without(keys[1..], k)
  }

  /** Taking out a key that is not there changes nothing. */
  lemma {:induction false} WithoutAbsent(keys: seq<string>, k: string)
    requires k !in keys
    ensures Without(keys, k) == keys
  {
    if |keys| > 0 {
      WithoutAbsent(keys[1..], k);
      assert keys == [keys[0]] + keys[1..];
    }
  }

  /** Taking a key out of a join takes it out of each part. */
  lemma {:induction false} WithoutConcat(a: seq<string>, b: seq<string>, k: string)
    ensures Without(a + b, k) == Without(a, k) + Without(b, k)
  {
    if |a| == 0 {
      assert a + b == b;
    } else {
      assert (a + b)[1..] == a[1..] + b;
      WithoutConcat(a[1..], b, k);
    }
  }

  /** Adding a new key and taking it out again gives the keys back, so a new key leaves
      the existing keys in their relative order. */
  lemma InsertKeyWithout(keys: seq<string>, k: string)
    requires k !in keys
    ensures Without(InsertKey(keys, k), k) == keys
  {
    var p := KeyPos(keys, k);
    var front, back := keys[..p], keys[p..];
    assert keys == front + back;
    assert InsertKey(keys, k) == (front + [k]) + back;
    WithoutConcat(front + [k], back, k);
    WithoutConcat(front, [k], k);
    assert Without([k], k) == [];
    WithoutAbsent(front, k);
    WithoutAbsent(back, k);
  }

  /** Adding a key keeps the keys in enumeration order. */
  lemma InsertKeyOrdered(keys: seq<string>, k: string)
    requires KeyOrdered(keys)
    ensures KeyOrdered(InsertKey(keys, k))
  {
    var p := KeyPos(keys, k);
    var r := InsertKey(keys, k);
    forall i, j | 0 <= i < j < |r| && IsIndexKey(r[j])
      ensures IsIndexKey(r[i]) && DigitsValue(r[i]) <= DigitsValue(r[j])
    {
      if j < p {
        assert r[i] == keys[i] && r[j] == keys[j];
      } else if j == p {
        assert r[j] == k && r[i] == keys[i];
      } else {
        assert r[j] == keys[j - 1];
        if i < p {
          assert r[i] == keys[i];
        } else if i == p {
          // the key the new one was put in front of is an index no smaller than it
          assert r[i] == k;
          assert IsIndexKey(keys[p]);
        } else {
          assert r[i] == keys[i - 1];
        }
      }
    }
  }

  /** A new key keeps the keys distinct. */
  lemma InsertKeyDistinct(keys: seq<string>, k: string)
    requires Distinct(keys) && k !in keys
    ensures Distinct(InsertKey(keys, k))
  {
    var p := KeyPos(keys, k);
    var r := InsertKey(keys, k);
    assert forall i :: 0 <= i < p ==> r[i] == keys[i];
    assert forall i :: p < i < |r| ==> r[i] == keys[i - 1];
  }

  /** "2" added before "1" still enumerates after it. */
  lemma IndicesAscend()
    ensures InsertKey(InsertKey([], "2"), "1") == ["1", "2"]
  {
    assert IsIndexKey("2") && DigitsValue("2") == 2;
    assert IsIndexKey("1") && DigitsValue("1") == 1;
    assert InsertKey([], "2") == ["2"];
    assert IndexPos(["2"], "1") == 0;
  }

  /** "1", "3", "2" added in that order enumerate as "1", "2", "3". */
  lemma IndicesByValue()
    ensures InsertKey(InsertKey(InsertKey([], "1"), "3"), "2") == ["1", "2", "3"]
  {
    assert IsIndexKey("1") && DigitsValue("1") == 1;
    assert InsertKey([], "1") == ["1"];
    IndexAfterIndex();
    IndexBetweenIndices();
  }

  /** A larger index goes after a smaller one. */
  lemma IndexAfterIndex()
    ensures InsertKey(["1"], "3") == ["1", "3"]
  {
    assert IsIndexKey("1") && DigitsValue("1") == 1;
    assert IsIndexKey("3") && DigitsValue("3") == 3;
    assert IndexPos(["1"][1..], "3") == 0;
    assert IndexPos(["1"], "3") == 1;
  }

  /** An index lands between the indices below and above it. */
  lemma IndexBetweenIndices()
    ensures InsertKey(["1", "3"], "2") == ["1", "2", "3"]
  {
    var keys := ["1", "3"];
    SecondPlace();
    assert keys[..1] == ["1"] && keys[1..] == ["3"];
  }

  /** "2" goes after the one index below it. */
  lemma SecondPlace()
    ensures KeyPos(["1", "3"], "2") == 1
  {
    assert IsIndexKey("1") && DigitsValue("1") == 1;
    assert IsIndexKey("2") && DigitsValue("2") == 2;
    assert IsIndexKey("3") && DigitsValue("3") == 3;
    assert ["1", "3"][1..] == ["3"];
    assert IndexPos(["3"], "2") == 0;
  }

  /** An index goes before a name added earlier; a name goes after every index. */
  lemma IndicesBeforeNames()
    ensures InsertKey(["wood"], "7") == ["7", "wood"]
    ensures InsertKey(["7"], "wood") == ["7", "wood"]
  {
    assert !IsIndexKey("wood") by {
      assert !IsDigit("wood"[0]);
    }
    assert IsIndexKey("7");
    assert IndexPos(["wood"], "7") == 0;
  }

  /** A new index lands among the indices by value, ahead of the names. */
  lemma IndexAmongIndices()
    ensures InsertKey(["1", "wood"], "12") == ["1", "12", "wood"]
  {
    assert IsIndexKey("1") && DigitsValue("1") == 1;
    assert IsIndexKey("12") && DigitsValue("12") == 12 by {
      assert "12"[..1] == "1";
    }
    assert ["1", "wood"][1..] == ["wood"];
    assert !IsIndexKey("wood") by {
      assert !IsDigit("wood"[0]);
    }
    assert IndexPos(["wood"], "12") == 0;
    assert IndexPos(["1", "wood"], "12") == 1;
  }
}
