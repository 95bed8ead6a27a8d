/** The numpy extension's resolve provider, `NDArrayTypeResolveProvider`
    (pydevd_plugin_numpy_types.py:12-76): it claims ndarray types and shows
    an array as a few summary children (min, max, shape, dtype, size) plus a
    slice of its rows, or, when the slice is expanded, as a container whose
    children are the rows labelled by zero-padded indices. numpy's own
    answers (`min()`, `max()`, `shape`, the dtype object, the default
    resolver's dictionary) are opaque values here. */
module NumpyTypes {
  import opened TextUtil
  import opened PyObjects
  import opened Constants
  import opened TypeResolve
  import opened KeyOrder

  /** A dtype: its one-letter kind code and the dtype object itself. */
  datatype Dtype = Dtype(kind: char, obj: PyObject)

  /** An ndarray as the provider sees it.
      - rows: what iterating over it yields (its first axis); `len(obj)` is |rows|
      - size: `obj.size`, the number of elements
      - dtype: `obj.dtype`, None when the object has no such attribute
      - shape, least, greatest: `obj.shape`, `obj.min()`, `obj.max()`
      - internals: `defaultResolver.get_dictionary(obj)` */
  datatype NdArray = NdArray(
    rows: seq<PyObject>,
    size: nat,
    dtype: Option<Dtype>,
    shape: PyObject,
    least: PyObject,
    greatest: PyObject,
    internals: PyObject)

  /** A child value the provider hands to the debugger. */
  datatype Child =
    | Value(obj: PyObject)
    | Text(text: string)
    | Count(n: nat)
    | Rows(items: seq<PyObject>)

  // ---------------------------------------------------------------------
  // can_provide (lines 13-15)

  /** `ndarray` is numpy's `ndarray` class as `find_mod_attr` finds it, None
      when numpy cannot be imported. */
  predicate CanProvide(rt: Runtime, ndarray: Option<PyType>, t: PyType) {
    ndarray.Some? && rt.isSubclass(t, ndarray.value)
  }

  /** The provider as the handler's registry holds it: its `can_provide`
      never raises, and `use_value_repr_instead_of_str` is False (line 20). */
  function NdArrayProvider(rt: Runtime, ndarray: Option<PyType>): ResolveProvider {
    ResolveProvider((t: PyType, name: string) => if CanProvide(rt, ndarray, t) then Yes else No, false)
  }

  /** Registered first, the provider claims every subclass of ndarray, and
      its resolver does not ask for repr. */
  lemma NumpyClaimsArrays(reg: Registry, nd: PyType, t: PyType, name: string)
    requires |reg.resolveProviders| > 0
    requires reg.resolveProviders[0] == NdArrayProvider(reg.rt, Some(nd))
    requires reg.rt.isSubclass(t, nd)
    ensures Classify(reg, t, name) == Some(Provided(0))
    ensures !UsesValueRepr(reg, Provided(0))
  {
    ProviderWins(reg, t, name, 0);
  }

  /** Without numpy the provider declines every type, so classification
      goes on to the next provider and the type map. */
  lemma WithoutNumpyNothingIsClaimed(rt: Runtime, t: PyType, name: string)
    ensures NdArrayProvider(rt, None).canProvide(t, name) == No
  {
  }

  /** With numpy the only provider, a type that is not an ndarray is
      classified by the type map alone. */
  lemma NonArraysGoToTheTypeMap(reg: Registry, nd: PyType, t: PyType, name: string)
    requires reg.resolveProviders == [NdArrayProvider(reg.rt, Some(nd))]
    requires !reg.rt.isSubclass(t, nd)
    ensures Classify(reg, t, name) == Classify(reg.(resolveProviders := []), t, name)
  {
    var answers := ProviderAnswers(reg.resolveProviders, t, name);
    assert answers == [No];
    assert AllNo(answers);
  }

  // ---------------------------------------------------------------------
  // is_numeric (lines 22-25)

  const NumericKinds: string := "biufc"

  predicate IsNumeric(a: NdArray) {
    a.dtype.Some? && a.dtype.value.kind in NumericKinds
  }

  // ---------------------------------------------------------------------
  // The rows container of resolve's '[' branch (lines 46-56)

  /** The label of row i of n: i zero-padded to the number of digits of n. */
  function Label(i: nat, n: nat): string {
    PadLeft(NatToString(i), |NatToString(n)|)
  }

  /** Labels are digit strings that read back as the row index. */
  lemma LabelReadsBack(i: nat, n: nat)
    ensures AllDigits(Label(i, n)) && ParseDecimal(Label(i, n)) == i
    ensures |Label(i, n)| >= 1
  {
    PaddedNumeral(i, |NatToString(n)|);
  }

  /** All labels of an array have the width of its length. */
  lemma LabelWidth(i: nat, n: nat)
    requires i < n
    ensures |Label(i, n)| == |NatToString(n)|
  {
    NumeralLengthMonotone(i, n);
  }

  /** Zero-padding makes the labels sort as strings in row order. */
  lemma LabelsSortInRowOrder(i: nat, j: nat, n: nat)
    requires i < j < n
    ensures StrLt(Label(i, n), Label(j, n))
  {
    LabelReadsBack(i, n);
    LabelReadsBack(j, n);
    LabelWidth(i, n);
    LabelWidth(j, n);
    NumeralsSortByValue(Label(i, n), Label(j, n));
  }

  /** The first k rows under their labels: what the loop has stored after k
      iterations. */
  function Labelled(rows: seq<PyObject>, k: nat): map<string, Child>
    requires k <= |rows|
  {
    if k == 0 then map[] else Labelled(rows, k - 1)[Label(k - 1, |rows|) := Value(rows[k - 1])]
  }

  /** The labels of the first k rows of n. */
  function LabelSet(k: nat, n: nat): set<string> {
    if k == 0 then {} else LabelSet(k - 1, n) + {Label(k - 1, n)}
  }

  lemma {:induction false} LabelledKeys(rows: seq<PyObject>, k: nat)
    requires k <= |rows|
    ensures Labelled(rows, k).Keys == LabelSet(k, |rows|)
  {
    if k > 0 {
      LabelledKeys(rows, k - 1);
    }
  }

  /** Every label of the first k rows reads back as an index below k. */
  lemma {:induction false} LabelSetMembers(k: nat, n: nat)
    ensures forall x :: x in LabelSet(k, n) ==> AllDigits(x) && |x| >= 1 && ParseDecimal(x) < k
  {
    if k > 0 {
      LabelSetMembers(k - 1, n);
      LabelReadsBack(k - 1, n);
    }
  }

  /** The first k rows get k different labels. */
  lemma {:induction false} LabelSetSize(k: nat, n: nat)
    ensures |LabelSet(k, n)| == k
  {
    if k > 0 {
      LabelSetSize(k - 1, n);
      NewLabel(k - 1, n);
    }
  }

  /** The label of row k is none of the labels before it. */
  lemma NewLabel(k: nat, n: nat)
    ensures Label(k, n) !in LabelSet(k, n)
  {
    LabelSetMembers(k, n);
    LabelReadsBack(k, n);
  }

  /** Each of the first k rows is stored under its own label. */
  lemma {:induction false} LabelledValues(rows: seq<PyObject>, k: nat)
    requires k <= |rows|
    ensures forall j :: 0 <= j < k ==>
      (Label(j, |rows|) in Labelled(rows, k) && Labelled(rows, k)[Label(j, |rows|)] == Value(rows[j]))
  {
    if k > 0 {
      LabelledValues(rows, k - 1);
      LabelReadsBack(k - 1, |rows|);
      forall j | 0 <= j < k - 1
        ensures Label(j, |rows|) != Label(k - 1, |rows|)
      {
        LabelReadsBack(j, |rows|);
      }
    }
  }

  /** How many rows the loop stores: all of them up to MAX_ITEMS_TO_HANDLE,
      otherwise one more than that, because the cap is tested after the
      row is stored and against `>`. */
  function ShownRows(n: nat): nat {
    if n <= MaxItemsToHandle then n else MaxItemsToHandle + 1
  }

  /** The attributes of the container resolve returns. */
  function ItemsAttrs(rows: seq<PyObject>): map<string, Child> {
    var shown := Labelled(rows, ShownRows(|rows|));
    if |rows| > MaxItemsToHandle then shown[TooLargeAttr := Text(TooLargeMsg)] else shown
  }

  lemma TooLargeAttrIsNoLabel(k: nat, n: nat)
    ensures TooLargeAttr !in LabelSet(k, n)
  {
    LabelSetMembers(k, n);
    assert !IsDigit(TooLargeAttr[0]);
  }

  /** The container holds the first rows, each under its label. */
  lemma ItemsAttrsShowFirstRows(rows: seq<PyObject>)
    ensures forall j :: 0 <= j < ShownRows(|rows|) ==>
      (Label(j, |rows|) in ItemsAttrs(rows) && ItemsAttrs(rows)[Label(j, |rows|)] == Value(rows[j]))
  {
    var k := ShownRows(|rows|);
    LabelledValues(rows, k);
    LabelledKeys(rows, k);
    TooLargeAttrIsNoLabel(k, |rows|);
  }

  /** No row past the cap gets a label in the container. */
  lemma ItemsAttrsHideLaterRows(rows: seq<PyObject>)
    ensures forall j :: ShownRows(|rows|) <= j < |rows| ==> Label(j, |rows|) !in ItemsAttrs(rows)
  {
    var n := |rows|;
    var k := ShownRows(n);
    LabelledKeys(rows, k);
    LabelSetMembers(k, n);
    forall j | k <= j < n
      ensures Label(j, n) !in ItemsAttrs(rows)
    {
      LabelReadsBack(j, n);
      assert Label(j, n) != TooLargeAttr by {
        assert IsDigit(Label(j, n)[0]);
      }
    }
  }

  /** The too-large marker is there exactly when the array has more than
      MAX_ITEMS_TO_HANDLE rows. */
  lemma ItemsAttrsMarkTooLarge(rows: seq<PyObject>)
    ensures TooLargeAttr in ItemsAttrs(rows) <==> |rows| > MaxItemsToHandle
    ensures |rows| > MaxItemsToHandle ==> ItemsAttrs(rows)[TooLargeAttr] == Text(TooLargeMsg)
  {
    var k := ShownRows(|rows|);
    LabelledKeys(rows, k);
    TooLargeAttrIsNoLabel(k, |rows|);
  }

  /** At most MAX_ITEMS_TO_HANDLE + 1 rows are stored, plus the marker. */
  lemma ItemsAttrsCount(rows: seq<PyObject>)
    ensures |ItemsAttrs(rows)| == ShownRows(|rows|) + (if |rows| > MaxItemsToHandle then 1 else 0)
    ensures ShownRows(|rows|) <= MaxItemsToHandle + 1
  {
    var k := ShownRows(|rows|);
    LabelledKeys(rows, k);
    LabelSetSize(k, |rows|);
    TooLargeAttrIsNoLabel(k, |rows|);
    assert |Labelled(rows, k)| == |Labelled(rows, k).Keys|;
  }

  /** With exactly MAX_ITEMS_TO_HANDLE + 1 rows every row is shown and the
      too-large marker is added all the same. */
  lemma OnePastTheCapIsMarkedTooLarge(rows: seq<PyObject>)
    requires |rows| == MaxItemsToHandle + 1
    ensures forall j :: 0 <= j < |rows| ==> Label(j, |rows|) in ItemsAttrs(rows)
    ensures TooLargeAttr in ItemsAttrs(rows)
  {
    ItemsAttrsShowFirstRows(rows);
    ItemsAttrsMarkTooLarge(rows);
  }

  /** `NdArrayItemsContainer`: an object whose attributes are set one by one. */
  class NdArrayItemsContainer {
    var attrs: map<string, Child>

    constructor ()
      ensures attrs == map[]
    {
      attrs := map[];
    }
  }

  /** The loop of lines 47-56: each row is stored under its label, and once
      more than MAX_ITEMS_TO_HANDLE rows are stored the marker is added and
      the loop stops (`break`, then the container is returned). */
  method ResolveRows(rows: seq<PyObject>) returns (c: NdArrayItemsContainer)
    ensures fresh(c)
    ensures c.attrs == ItemsAttrs(rows)
  {
    c := new NdArrayItemsContainer();
    var i := 0;
    while i < |rows|
      invariant 0 <= i <= |rows| && i <= MaxItemsToHandle
      invariant c.attrs == Labelled(rows, i)
    {
      c.attrs := c.attrs[Label(i, |rows|) := Value(rows[i])];
      i := i + 1;
      if i > MaxItemsToHandle {
        c.attrs := c.attrs[TooLargeAttr := Text(TooLargeMsg)];
        CappedItemsAttrs(rows);
        return;
      }
    }
    SmallItemsAttrs(rows);
  }

  lemma SmallItemsAttrs(rows: seq<PyObject>)
    requires |rows| <= MaxItemsToHandle
    ensures ItemsAttrs(rows) == Labelled(rows, |rows|)
  {
  }

  lemma CappedItemsAttrs(rows: seq<PyObject>)
    requires |rows| > MaxItemsToHandle
    ensures ItemsAttrs(rows) == Labelled(rows, MaxItemsToHandle + 1)[TooLargeAttr := Text(TooLargeMsg)]
  {
  }

  // ---------------------------------------------------------------------
  // resolve (lines 27-57)

  /** What `resolve(obj, attribute)` does: give a child, give None, raise,
      or build the rows container. */
  datatype Outcome = Nothing | Gives(child: Child) | Raised | RowsContainer

  function ResolveOutcome(a: NdArray, attribute: string): Outcome {
    if attribute == "__internals__" then Gives(Value(a.internals))
    else if attribute == "min" then (if IsNumeric(a) then Gives(Value(a.least)) else Nothing)
    else if attribute == "max" then (if IsNumeric(a) then Gives(Value(a.greatest)) else Nothing)
    else if attribute == "shape" then Gives(Value(a.shape))
    else if attribute == "dtype" then (if a.dtype.Some? then Gives(Value(a.dtype.value.obj)) else Raised)
    else if attribute == "size" then Gives(Count(a.size))
    else if StartsWith(attribute, "[") then RowsContainer
    else Nothing
  }

  const Recognised: set<string> := {"__internals__", "min", "max", "shape", "dtype", "size"}

  /** resolve gives None exactly for an unrecognised name that does not
      start with '[' and for min/max of a non-numeric array. */
  lemma ResolveGivesNone(a: NdArray, attribute: string)
    ensures ResolveOutcome(a, attribute) == Nothing <==>
      (attribute !in Recognised && !StartsWith(attribute, "["))
      || (attribute in {"min", "max"} && !IsNumeric(a))
  {
    assert !StartsWith("__internals__", "[") by { DiffersAt("__internals__", "[", 0); }
  }

  /** The rows container is built exactly for names starting with '['. */
  lemma ResolveBuildsRowsFor(a: NdArray, attribute: string)
    ensures ResolveOutcome(a, attribute) == RowsContainer <==> StartsWith(attribute, "[")
  {
    if attribute in Recognised {
      DiffersAt(attribute, "[", 0);
    }
  }

  /** The result of `resolve`: None, a child, the rows container, or the
      exception raised reading `dtype`. */
  datatype Resolved = ResolvedNone | ResolvedChild(child: Child) | ResolvedRows(container: NdArrayItemsContainer)
                    | ResolveRaised

  method Resolve(a: NdArray, attribute: string) returns (r: Resolved)
    ensures ResolveOutcome(a, attribute) == Nothing ==> r == ResolvedNone
    ensures ResolveOutcome(a, attribute) == Raised ==> r == ResolveRaised
    ensures ResolveOutcome(a, attribute).Gives? ==> r == ResolvedChild(ResolveOutcome(a, attribute).child)
    ensures ResolveOutcome(a, attribute) == RowsContainer ==>
      r.ResolvedRows? && fresh(r.container) && r.container.attrs == ItemsAttrs(a.rows)
  {
    if attribute == "__internals__" {
      return ResolvedChild(Value(a.internals));
    }
    if attribute == "min" {
      return if IsNumeric(a) then ResolvedChild(Value(a.least)) else ResolvedNone;
    }
    if attribute == "max" {
      return if IsNumeric(a) then ResolvedChild(Value(a.greatest)) else ResolvedNone;
    }
    if attribute == "shape" {
      return ResolvedChild(Value(a.shape));
    }
    if attribute == "dtype" {
      return if a.dtype.Some? then ResolvedChild(Value(a.dtype.value.obj)) else ResolveRaised;
    }
    if attribute == "size" {
      return ResolvedChild(Count(a.size));
    }
    if StartsWith(attribute, "[") {
      var c := ResolveRows(a.rows);
      return ResolvedRows(c);
    }
    return ResolvedNone;
  }

  // ---------------------------------------------------------------------
  // get_dictionary (lines 59-76)

  /** Above this many elements min and max are not computed. */
  const MinMaxSizeLimit: nat := 1024 * 1024

  const MinTooBig: string := "ndarray too big, calculating min would slow down debugging"
  const MaxTooBig: string := "ndarray too big, calculating max would slow down debugging"
  const NotNumeric: string := "not a numeric object"

  /** The key of the rows slice: `'[0:%s] ' % len(obj)`. */
  function SliceKey(n: nat): string {
    "[0:" + NatToString(n) + "] "
  }

  /** `obj[0:MAX_ITEMS_TO_HANDLE]` as a list. */
  function FirstRows(rows: seq<PyObject>): seq<PyObject> {
    if |rows| <= MaxItemsToHandle then rows else rows[..MaxItemsToHandle]
  }

  /** The dictionary `get_dictionary` returns, or None when it raises
      (reading `dtype`, line 73). */
  function DictionaryOf(a: NdArray): Option<map<string, Child>> {
    if a.dtype.None? then None
    else
      var minMax :=
        if a.size > MinMaxSizeLimit then (Text(MinTooBig), Text(MaxTooBig))
        else if IsNumeric(a) then (Value(a.least), Value(a.greatest))
        else (Text(NotNumeric), Text(NotNumeric));
      Some(map["__internals__" := Value(a.internals), "min" := minMax.0, "max" := minMax.1,
               "shape" := Value(a.shape), "dtype" := Value(a.dtype.value.obj), "size" := Count(a.size),
               SliceKey(|a.rows|) := Rows(FirstRows(a.rows))])
  }

  method GetDictionary(a: NdArray) returns (ret: Option<map<string, Child>>)
    ensures ret == DictionaryOf(a)
  {
    var d: map<string, Child> := map[];
    d := d["__internals__" := Value(a.internals)];
    if a.size > MinMaxSizeLimit {
      d := d["min" := Text(MinTooBig)];
      d := d["max" := Text(MaxTooBig)];
    } else if IsNumeric(a) {
      d := d["min" := Value(a.least)];
      d := d["max" := Value(a.greatest)];
    } else {
      d := d["min" := Text(NotNumeric)];
      d := d["max" := Text(NotNumeric)];
    }
    d := d["shape" := Value(a.shape)];
    if a.dtype.None? {
      return None;
    }
    d := d["dtype" := Value(a.dtype.value.obj)];
    d := d["size" := Count(a.size)];
    d := d[SliceKey(|a.rows|) := Rows(FirstRows(a.rows))];
    ret := Some(d);
  }

  /** The dictionary has exactly seven children: the six named ones and the
      rows slice, which holds at most MAX_ITEMS_TO_HANDLE rows, the first
      ones in order. */
  lemma DictionaryKeys(a: NdArray)
    requires a.dtype.Some?
    ensures DictionaryOf(a).Some?
    ensures DictionaryOf(a).value.Keys == Recognised + {SliceKey(|a.rows|)}
    ensures |DictionaryOf(a).value| == 7
    ensures var items := DictionaryOf(a).value[SliceKey(|a.rows|)].items;
      |items| <= MaxItemsToHandle && items <= a.rows
      && |items| == (if |a.rows| <= MaxItemsToHandle then |a.rows| else MaxItemsToHandle)
  {
    var k := SliceKey(|a.rows|);
    assert k[0] == '[';
    assert k !in Recognised;
    assert |Recognised| == 6;
  }

  /** min and max: the fixed messages above 1024*1024 elements, else the
      array's own min and max when it is numeric, else 'not a numeric object'. */
  lemma DictionaryMinMax(a: NdArray)
    requires a.dtype.Some?
    ensures var d := DictionaryOf(a).value;
      && (a.size > MinMaxSizeLimit ==> d["min"] == Text(MinTooBig) && d["max"] == Text(MaxTooBig))
      && (a.size <= MinMaxSizeLimit && IsNumeric(a) ==> d["min"] == Value(a.least) && d["max"] == Value(a.greatest))
      && (a.size <= MinMaxSizeLimit && !IsNumeric(a) ==> d["min"] == Text(NotNumeric) && d["max"] == Text(NotNumeric))
      && (d["min"].Text? <==> a.size > MinMaxSizeLimit || !IsNumeric(a))
  {
  }

  /** Expanding a child of the dictionary asks resolve for it: the summary
      children agree with resolve (min and max only while they are computed),
      and the rows slice opens the rows container. */
  lemma DictionaryAgreesWithResolve(a: NdArray, key: string)
    requires a.dtype.Some? && key in DictionaryOf(a).value
    ensures key in {"__internals__", "shape", "dtype", "size"} ==>
      ResolveOutcome(a, key) == Gives(DictionaryOf(a).value[key])
    ensures key in {"min", "max"} && a.size <= MinMaxSizeLimit && IsNumeric(a) ==>
      ResolveOutcome(a, key) == Gives(DictionaryOf(a).value[key])
    ensures key in {"min", "max"} && !IsNumeric(a) ==>
      ResolveOutcome(a, key) == Nothing && DictionaryOf(a).value[key].Text?
    ensures key == SliceKey(|a.rows|) ==> ResolveOutcome(a, key) == RowsContainer
  {
    DictionaryKeys(a);
    var k := SliceKey(|a.rows|);
    assert StartsWith(k, "[") by {
      assert k[..1] == "[";
    }
  }

  /** The rows the slice shows are the rows the container shows first, under
      labels in row order. */
  lemma SliceRowsAreLabelledRows(a: NdArray, j: nat)
    requires a.dtype.Some? && j < |DictionaryOf(a).value[SliceKey(|a.rows|)].items|
    ensures j < |a.rows| && Label(j, |a.rows|) in ItemsAttrs(a.rows)
    ensures ItemsAttrs(a.rows)[Label(j, |a.rows|)] == Value(DictionaryOf(a).value[SliceKey(|a.rows|)].items[j])
  {
    DictionaryKeys(a);
    ItemsAttrsShowFirstRows(a.rows);
  }
}
