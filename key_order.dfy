/** The order in which frame_vars_to_xml lists variables
    (pydevd_xml.py:242-245): Python's `<` on str, which compares code points
    from the left and puts a proper prefix first, and `sorted` over the keys
    of the locals dict. */
module KeyOrder {
  import opened TextUtil

  predicate StrLt(a: string, b: string)
    decreases |a|
  {
    if a == [] then b != []
    else if b == [] then false
    else if a[0] != b[0] then a[0] < b[0]
    else StrLt(a[1..], b[1..])
  }

  lemma {:induction false} StrLtIrreflexive(a: string)
    ensures !StrLt(a, a)
  {
    if a != [] {
      StrLtIrreflexive(a[1..]);
    }
  }

  lemma {:induction false} StrLtAsymmetric(a: string, b: string)
    requires StrLt(a, b)
    ensures !StrLt(b, a)
  {
    if a != [] && b != [] && a[0] == b[0] {
      StrLtAsymmetric(a[1..], b[1..]);
    }
  }

  lemma {:induction false} StrLtTransitive(a: string, b: string, c: string)
    requires StrLt(a, b) && StrLt(b, c)
    ensures StrLt(a, c)
  {
    if a != [] && b != [] && c != [] && a[0] == b[0] && b[0] == c[0] {
      StrLtTransitive(a[1..], b[1..], c[1..]);
    }
  }

  lemma {:induction false} StrLtTotal(a: string, b: string)
    requires a != b
    ensures StrLt(a, b) || StrLt(b, a)
  {
    if a != [] && b != [] && a[0] == b[0] {
      assert a == [a[0]] + a[1..] && b == [b[0]] + b[1..];
      StrLtTotal(a[1..], b[1..]);
    }
  }

  predicate StrictlySorted(ks: seq<string>) {
    forall i, j :: 0 <= i < j < |ks| ==> StrLt(ks[i], ks[j])
  }

  function Elems(ks: seq<string>): set<string> {
    set k | k in ks
  }

  predicate IsLeast(m: string, keys: set<string>) {
    m in keys && forall x :: x in keys && x != m ==> StrLt(m, x)
  }

  /** Every finite set of strings has a least element. */
  lemma {:induction false} LeastExists(keys: set<string>)
    requires keys != {}
    ensures exists m :: IsLeast(m, keys)
  {
    var y :| y in keys;
    if keys == {y} {
      assert IsLeast(y, keys);
    } else {
      var others := keys - {y};
      LeastExists(others);
      var m :| IsLeast(m, others);
      StrLtTotal(m, y);
      if StrLt(m, y) {
        assert IsLeast(m, keys);
      } else {
        forall x | x in keys && x != y
          ensures StrLt(y, x)
        {
          if x != m {
            StrLtTransitive(y, m, x);
          }
        }
        assert IsLeast(y, keys);
      }
    }
  }

  /** The keys in increasing order: what `sorted` returns. */
  ghost function SortedKeysOf(keys: set<string>): (ks: seq<string>)
    ensures StrictlySorted(ks) && Elems(ks) == keys
    decreases keys
  {
    if keys == {} then []
    else
      LeastExists(keys);
      var m :| IsLeast(m, keys);
      var rest := SortedKeysOf(keys - {m});
      var ks := [m] + rest;
      assert forall j :: 0 < j < |ks| ==> ks[j] == rest[j - 1] && rest[j - 1] in Elems(rest);
      assert Elems(ks) == {m} + Elems(rest);
      ks
  }

  /** The head of an increasing sequence is below every other element. */
  lemma HeadIsLeast(ks: seq<string>, x: string)
    requires StrictlySorted(ks) && x in ks
    ensures x == ks[0] || StrLt(ks[0], x)
  {
  }

  /** An increasing sequence is determined by its elements. */
  lemma {:induction false} SortedUnique(a: seq<string>, b: seq<string>)
    requires StrictlySorted(a) && StrictlySorted(b) && Elems(a) == Elems(b)
    ensures a == b
  {
    assert |a| > 0 ==> a[0] in Elems(a);
    assert |b| > 0 ==> b[0] in Elems(b);
    if a != [] {
      StrLtIrreflexive(a[0]);
      HeadIsLeast(b, a[0]);
      HeadIsLeast(a, b[0]);
      if StrLt(b[0], a[0]) {
        StrLtAsymmetric(b[0], a[0]);
      }
      assert Elems(a[1..]) == Elems(a) - {a[0]};
      assert Elems(b[1..]) == Elems(b) - {b[0]};
      SortedUnique(a[1..], b[1..]);
      assert a == [a[0]] + a[1..] && b == [b[0]] + b[1..];
    }
  }

  /** Dropping an element keeps a sequence increasing. */
  lemma RemoveKeepsSorted(ks: seq<string>, i: nat)
    requires StrictlySorted(ks) && i < |ks|
    ensures StrictlySorted(ks[..i] + ks[i + 1..])
    ensures Elems(ks[..i] + ks[i + 1..]) == Elems(ks) - {ks[i]}
  {
    var r := ks[..i] + ks[i + 1..];
    forall p, q | 0 <= p < q < |r|
      ensures StrLt(r[p], r[q])
    {
      var p' := if p < i then p else p + 1;
      var q' := if q < i then q else q + 1;
      assert r[p] == ks[p'] && r[q] == ks[q'];
    }
    forall j | 0 <= j < |ks| && j != i
      ensures ks[j] != ks[i]
    {
      StrLtIrreflexive(ks[i]);
    }
    assert forall j :: 0 <= j < |r| ==> r[j] == ks[if j < i then j else j + 1];
  }

  lemma InsertKeepsSorted(ks: seq<string>, i: nat, k: string)
    requires StrictlySorted(ks) && i <= |ks| && k !in ks
    requires forall j :: 0 <= j < i ==> StrLt(ks[j], k)
    requires i < |ks| ==> !StrLt(ks[i], k)
    ensures StrictlySorted(ks[..i] + [k] + ks[i..])
  {
    if i < |ks| {
      StrLtTotal(ks[i], k);
    }
    forall j | i < j < |ks|
      ensures StrLt(k, ks[j])
    {
      StrLtTransitive(k, ks[i], ks[j]);
    }
    var r := ks[..i] + [k] + ks[i..];
    assert forall j :: 0 <= j < i ==> r[j] == ks[j];
    assert r[i] == k;
    assert forall j :: i < j < |r| ==> r[j] == ks[j - 1];
  }

  lemma InsertElems(ks: seq<string>, i: nat, k: string)
    requires i <= |ks|
    ensures Elems(ks[..i] + [k] + ks[i..]) == Elems(ks) + {k}
  {
    var r := ks[..i] + [k] + ks[i..];
    forall x | x in Elems(ks)
      ensures x in Elems(r)
    {
      var j :| 0 <= j < |ks| && ks[j] == x;
      if j < i {
        assert r[j] == x;
      } else {
        assert r[j + 1] == x;
      }
    }
    assert r[i] == k;
    forall x | x in Elems(r)
      ensures x in Elems(ks) + {k}
    {
      var j :| 0 <= j < |r| && r[j] == x;
      if j < i {
        assert ks[j] == x;
      } else if j > i {
        assert ks[j - 1] == x;
      }
    }
  }

  /** `sorted(dict_keys(frame_f_locals))`: an insertion sort over the keys,
      taken from the dict in no particular order. */
  method SortKeys(keys: set<string>) returns (ks: seq<string>)
    ensures ks == SortedKeysOf(keys)
    ensures StrictlySorted(ks) && Elems(ks) == keys
  {
    ks := [];
    var rest := keys;
    while rest != {}
      invariant StrictlySorted(ks)
      invariant Elems(ks) + rest == keys
      invariant Elems(ks) !! rest
      decreases |rest|
    {
      var k :| k in rest;
      var i := 0;
      while i < |ks| && StrLt(ks[i], k)
        invariant 0 <= i <= |ks|
        invariant forall j :: 0 <= j < i ==> StrLt(ks[j], k)
      {
        i := i + 1;
      }
      InsertKeepsSorted(ks, i, k);
      InsertElems(ks, i, k);
      ks := ks[..i] + [k] + ks[i..];
      rest := rest - {k};
    }
    SortedUnique(ks, SortedKeysOf(keys));
  }

  /** Numerals of the same length compare as strings the way their values
      compare as numbers: the reason for zero-padding labels. */
  lemma {:induction false} NumeralsSortByValue(a: string, b: string)
    requires AllDigits(a) && AllDigits(b) && |a| == |b|
    requires ParseDecimal(a) < ParseDecimal(b)
    ensures StrLt(a, b)
  {
    if a != [] {
      ParseFront(a);
      ParseFront(b);
      ParseBound(a[1..]);
      ParseBound(b[1..]);
      var x := Pow10(|a| - 1);
      var da, db := DigitValue(a[0]), DigitValue(b[0]);
      if da == db {
        NumeralsSortByValue(a[1..], b[1..]);
      } else if da > db {
        ScaledDigitsApart(db, da, x);
        assert false;
      }
    }
  }

  lemma {:induction false} ScaledDigitsApart(lo: int, hi: int, x: nat)
    requires lo < hi
    ensures lo * x + x <= hi * x
    decreases hi - lo
  {
    if lo + 1 < hi {
      ScaledDigitsApart(lo, hi - 1, x);
    }
    assert hi * x == (hi - 1) * x + x;
  }
}
