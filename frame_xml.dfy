/** The frame dump (pydevd_xml.py:218-261): the locals of a frame listed
    in sorted-name order, one `<var .../>` record each, with the reserved
    return-values entry expanded into one record per returned value, names
    in the hidden namespace tagged, and any binding whose encoding raises
    left out. The encoding goes through the handler's `get_type`, so these
    are methods that update the handler's caches. */
module FrameXml {
  import opened PyObjects
  import opened Constants
  import opened TypeResolve
  import opened VarXml
  import opened KeyOrder

  /** `is_builtin` (pydevd_xml.py:218-219). */
  predicate IsBuiltin(rt: Runtime, t: PyType) {
    rt.moduleOf(t) == BuiltinsModuleName
  }

  predicate IsInstance(rt: Runtime, o: PyObject, cls: PyType) {
    rt.isSubclass(TypeObjectOf(o), cls)
  }

  /** `should_evaluate_full_value` (pydevd_xml.py:222-223): always when
      values are not loaded asynchronously, otherwise only for instances of
      built-in types other than list, tuple and dict. */
  predicate ShouldEvaluateFullValue(rt: Runtime, loadValuesAsync: bool, v: PyObject) {
    !loadValuesAsync
    || (IsBuiltin(rt, v.runtimeType)
        && !(IsInstance(rt, v, List) || IsInstance(rt, v, Tuple) || IsInstance(rt, v, Dict)))
  }

  // ---------------------------------------------------------------------
  // What the dump contains

  /** The records `return_values_from_dict_to_xml` writes for the given
      (name, value) pairs, or None when one of them raises
      (pydevd_xml.py:226-230). */
  function RetValRecords(reg: Registry, items: seq<(string, PyObject)>, evaluateFullValue: bool)
    : (r: Option<seq<VarRecord>>)
    ensures r.Some? ==>
      |r.value| == |items|
      && forall i :: 0 <= i < |items| ==> r.value[i].name == items[i].0 && r.value[i].extra == RetValAttr
    ensures !evaluateFullValue ==> r.Some?
  {
    if items == [] then Some([])
    else
      var n := |items| - 1;
      match RetValRecords(reg, items[..n], evaluateFullValue)
      case None => None
      case Some(front) =>
        match VarRecordOf(reg, Plain(items[n].1), LookupRaised, items[n].0, true, RetValAttr, evaluateFullValue)
        case None => None
        case Some(rec) => Some(front + [rec])
  }

  lemma {:induction false} RetValFailureSpreads(reg: Registry, items: seq<(string, PyObject)>, i: nat,
                                                evaluateFullValue: bool)
    requires i <= |items| && RetValRecords(reg, items[..i], evaluateFullValue).None?
    ensures RetValRecords(reg, items, evaluateFullValue).None?
  {
    if i == |items| {
      assert items[..i] == items;
    } else {
      var front := items[..|items| - 1];
      assert front[..i] == items[..i];
      RetValFailureSpreads(reg, front, i, evaluateFullValue);
    }
  }

  /** What `return_values_from_dict_to_xml(v, eval_full_val)` returns, or
      None when it raises (also when `v` is not a dict). */
  function ReturnValuesXmlOf(reg: Registry, v: PyObject, evaluateFullValue: bool): Option<string> {
    match v.items
    case None => None
    case Some(items) =>
      match RetValRecords(reg, items, evaluateFullValue)
      case None => None
      case Some(recs) => Some(RenderAll(recs))
  }

  function HiddenExtra(k: string, hidden: Option<set<string>>): string {
    if hidden.Some? && k in hidden.value then HiddenAttr else []
  }

  /** The records the binding `k = v` contributes, or None when encoding it
      raises (pydevd_xml.py:241-259). */
  function EntryRecords(reg: Registry, k: string, v: PyObject, hidden: Option<set<string>>,
                        loadValuesAsync: bool): (r: Option<seq<VarRecord>>)
    ensures r.Some? ==> forall i :: 0 <= i < |r.value| ==> KnownExtra(r.value[i].extra)
    ensures k != ReturnValuesDict && r.Some? ==>
      |r.value| == 1 && r.value[0].name == k && r.value[0].extra == HiddenExtra(k, hidden)
    ensures k != ReturnValuesDict && !ShouldEvaluateFullValue(reg.rt, loadValuesAsync, v) ==>
      r.Some? && r.value[0].value == DefaultValue
    ensures k == ReturnValuesDict && r.Some? ==>
      v.items.Some? && |r.value| == |v.items.value|
      && forall i :: 0 <= i < |r.value| ==>
           r.value[i].name == v.items.value[i].0 && r.value[i].extra == RetValAttr
  {
    var full := ShouldEvaluateFullValue(reg.rt, loadValuesAsync, v);
    if k == ReturnValuesDict then
      match v.items
      case None => None
      case Some(items) => RetValRecords(reg, items, full)
    else
      match VarRecordOf(reg, Plain(v), LookupRaised, k, true, HiddenExtra(k, hidden), full)
      case None => None
      case Some(rec) => Some([rec])
  }

  /** With asynchronous loading, a value of a type from outside the builtins
      module, or a list, tuple or dict, is written with the placeholder
      value instead of its text. */
  lemma AsyncDefersNonScalars(reg: Registry, k: string, v: PyObject, hidden: Option<set<string>>)
    requires k != ReturnValuesDict
    requires !IsBuiltin(reg.rt, v.runtimeType)
             || IsInstance(reg.rt, v, List) || IsInstance(reg.rt, v, Tuple) || IsInstance(reg.rt, v, Dict)
    ensures EntryRecords(reg, k, v, hidden, true).Some?
    ensures EntryRecords(reg, k, v, hidden, true).value[0].value == DefaultValue
  {
  }

  /** With asynchronous loading, an instance of a built-in type that is not
      a list, tuple or dict is written exactly as without it. */
  lemma AsyncEvaluatesBuiltinScalars(reg: Registry, k: string, v: PyObject, hidden: Option<set<string>>)
    requires IsBuiltin(reg.rt, v.runtimeType)
    requires !IsInstance(reg.rt, v, List) && !IsInstance(reg.rt, v, Tuple) && !IsInstance(reg.rt, v, Dict)
    ensures EntryRecords(reg, k, v, hidden, true) == EntryRecords(reg, k, v, hidden, false)
  {
  }

  /** What each key of the locals contributes to the dump: its records, or
      nothing when encoding it raises. */
  function EntryOf(reg: Registry, locals: map<string, PyObject>, hidden: Option<set<string>>,
                   loadValuesAsync: bool): string -> seq<VarRecord>
  {
    k =>
      if k !in locals then []
      else match EntryRecords(reg, k, locals[k], hidden, loadValuesAsync)
        case None => []
        case Some(rs) => rs
  }

  /** The contributions of the keys `ks`, in that order. */
  function Gather(entry: string -> seq<VarRecord>, ks: seq<string>): seq<VarRecord> {
    if ks == [] then [] else Gather(entry, ks[..|ks| - 1]) + entry(ks[|ks| - 1])
  }

  lemma {:induction false} GatherAppend(entry: string -> seq<VarRecord>, a: seq<string>, b: seq<string>)
    ensures Gather(entry, a + b) == Gather(entry, a) + Gather(entry, b)
  {
    if b == [] {
      assert a + b == a;
    } else {
      var front := b[..|b| - 1];
      var ab := a + b;
      assert ab[..|ab| - 1] == a + front && ab[|ab| - 1] == b[|b| - 1];
      GatherAppend(entry, a, front);
    }
  }

  lemma {:induction false} GatherAgrees(f: string -> seq<VarRecord>, g: string -> seq<VarRecord>, ks: seq<string>)
    requires forall j :: 0 <= j < |ks| ==> f(ks[j]) == g(ks[j])
    ensures Gather(f, ks) == Gather(g, ks)
  {
    if ks != [] {
      GatherAgrees(f, g, ks[..|ks| - 1]);
    }
  }

  lemma {:induction false} GatherKnownExtras(entry: string -> seq<VarRecord>, ks: seq<string>)
    requires forall j, i :: 0 <= j < |ks| && 0 <= i < |entry(ks[j])| ==> KnownExtra(entry(ks[j])[i].extra)
    ensures forall i :: 0 <= i < |Gather(entry, ks)| ==> KnownExtra(Gather(entry, ks)[i].extra)
  {
    if ks != [] {
      var front := ks[..|ks| - 1];
      GatherKnownExtras(entry, front);
      var last := entry(ks[|ks| - 1]);
      assert forall i :: 0 <= i < |last| ==> KnownExtra(last[i].extra);
    }
  }

  /** The records of the frame dump. */
  ghost function FrameRecordsOf(reg: Registry, locals: map<string, PyObject>,
                                hidden: Option<set<string>>, loadValuesAsync: bool): seq<VarRecord>
  {
    Gather(EntryOf(reg, locals, hidden, loadValuesAsync), SortedKeysOf(locals.Keys))
  }

  /** What `frame_vars_to_xml(frame_f_locals, hidden_ns)` returns. */
  ghost function FrameXmlOf(reg: Registry, locals: map<string, PyObject>,
                            hidden: Option<set<string>>, loadValuesAsync: bool): string
  {
    RenderAll(FrameRecordsOf(reg, locals, hidden, loadValuesAsync))
  }

  // ---------------------------------------------------------------------
  // The operations

  /** `var_to_xml(val, name, doTrim, additionalInXml, evaluate_full_value)`
      as written: the string-presentation lookup raises, so a fully
      evaluated value is shown by its repr. The only handler state it
      touches is the resolver cache, through `get_type`. */
  method VarToXml(h: TypeResolveHandler, val: PyValue, name: string, doTrim: bool, extra: string,
                  evaluateFullValue: bool) returns (xml: Option<string>)
    requires h.Valid()
    modifies h
    ensures h.Valid()
    ensures xml == VarXmlOf(h.Config(), val, LookupRaised, name, doTrim, extra, evaluateFullValue)
    ensures h.strProviderCache == old(h.strProviderCache) && h.strCanProvideCalls == old(h.strCanProvideCalls)
    ensures old(h.resolverCache).Keys <= h.resolverCache.Keys && old(h.canProvideCalls) <= h.canProvideCalls
    ensures var t := TypeObjectOf(Unwrapped(val));
      if h.rt.typeName(t).None? || (t in old(h.resolverCache) && old(h.resolverCache)[t].Some?) then
        h.resolverCache == old(h.resolverCache) && h.canProvideCalls == old(h.canProvideCalls)
      else
        var info := TypeInfoOf(h.Config(), Unwrapped(val));
        h.resolverCache == old(h.resolverCache)[t := info.resolver]
        && h.canProvideCalls == old(h.canProvideCalls)
           + Asked(FirstHit(ProviderAnswers(h.resolveProviders, t, info.typeName)), |h.resolveProviders|)
  {
    var info := h.GetType(Unwrapped(val));
    xml := VarText(h.rt, h.Config(), val, info, name, doTrim, extra, evaluateFullValue);
  }

  /** The rest of var_to_xml once `get_type` has answered: the value text
      and the record built from it. */
  method VarText(rt: Runtime, ghost reg: Registry, val: PyValue, info: TypeInfo, name: string, doTrim: bool,
                 extra: string, evaluateFullValue: bool) returns (xml: Option<string>)
    requires rt == reg.rt && info == TypeInfoOf(reg, Unwrapped(val))
    ensures xml == VarXmlOf(reg, val, LookupRaised, name, doTrim, extra, evaluateFullValue)
  {
    var v := Unwrapped(val);
    var text: Option<string>;
    if !evaluateFullValue {
      text := Some(DefaultValue);
    } else {
      // `TypeResolveHandler.instance()` raises here (line 281); the handler
      // at 313-317 falls back to repr.
      text := ReprFallback(rt, v);
    }
    assert text == ValueText(reg, v, info.resolver, LookupRaised, evaluateFullValue);
    if text.None? {
      return None;
    }
    var rec := VarRecord(name, info.typeName, QualifierOf(rt, info.typeObject), Trim(text.value, doTrim),
                         FlagOf(val, info.resolver), extra);
    assert VarRecordOf(reg, val, LookupRaised, name, doTrim, extra, evaluateFullValue) == Some(rec);
    xml := Some(Render(rec));
  }

  /** `return_values_from_dict_to_xml` (pydevd_xml.py:226-230). */
  method ReturnValuesToXml(h: TypeResolveHandler, v: PyObject, evaluateFullValue: bool)
    returns (xml: Option<string>)
    requires h.Valid()
    modifies h
    ensures h.Valid()
    ensures xml == ReturnValuesXmlOf(h.Config(), v, evaluateFullValue)
    ensures h.strProviderCache == old(h.strProviderCache) && h.strCanProvideCalls == old(h.strCanProvideCalls)
    ensures old(h.resolverCache).Keys <= h.resolverCache.Keys && old(h.canProvideCalls) <= h.canProvideCalls
  {
    if v.items.None? {
      return None;
    }
    var items := v.items.value;
    var res := "";
    var i := 0;
    while i < |items|
      invariant 0 <= i <= |items|
      invariant h.Valid()
      invariant RetValRecords(h.Config(), items[..i], evaluateFullValue).Some?
      invariant h.strProviderCache == old(h.strProviderCache) && h.strCanProvideCalls == old(h.strCanProvideCalls)
      invariant old(h.resolverCache).Keys <= h.resolverCache.Keys && old(h.canProvideCalls) <= h.canProvideCalls
      invariant res == RenderAll(RetValRecords(h.Config(), items[..i], evaluateFullValue).value)
    {
      var next := AppendRetVal(h, items, i, evaluateFullValue, res);
      if next.None? {
        return None;
      }
      res := next.value;
      i := i + 1;
    }
    assert items[..i] == items;
    xml := Some(res);
  }

  /** One turn of the loop in return_values_from_dict_to_xml: the text so
      far with the next returned value appended, or None when it raises. */
  method AppendRetVal(h: TypeResolveHandler, items: seq<(string, PyObject)>, i: nat, evaluateFullValue: bool,
                      res: string) returns (next: Option<string>)
    requires h.Valid() && i < |items|
    requires RetValRecords(h.Config(), items[..i], evaluateFullValue).Some?
    requires res == RenderAll(RetValRecords(h.Config(), items[..i], evaluateFullValue).value)
    modifies h
    ensures h.Valid()
    ensures h.strProviderCache == old(h.strProviderCache) && h.strCanProvideCalls == old(h.strCanProvideCalls)
    ensures old(h.resolverCache).Keys <= h.resolverCache.Keys && old(h.canProvideCalls) <= h.canProvideCalls
    ensures next.None? ==> RetValRecords(h.Config(), items, evaluateFullValue).None?
    ensures next.Some? ==>
      && RetValRecords(h.Config(), items[..i + 1], evaluateFullValue).Some?
      && next.value == RenderAll(RetValRecords(h.Config(), items[..i + 1], evaluateFullValue).value)
  {
    var (name, value) := items[i];
    var one := VarToXml(h, Plain(value), name, true, RetValAttr, evaluateFullValue);
    RetValTextStep(h.Config(), items, i, evaluateFullValue, res);
    next := if one.None? then None else Some(res + one.value);
  }

  /** One more returned value: its text is appended, or the whole call
      raises. */
  lemma RetValTextStep(reg: Registry, items: seq<(string, PyObject)>, i: nat, full: bool, res: string)
    requires i < |items| && RetValRecords(reg, items[..i], full).Some?
    requires res == RenderAll(RetValRecords(reg, items[..i], full).value)
    ensures var one := VarXmlOf(reg, Plain(items[i].1), LookupRaised, items[i].0, true, RetValAttr, full);
      && (one.None? ==> RetValRecords(reg, items, full).None?)
      && (one.Some? ==> RetValRecords(reg, items[..i + 1], full).Some?
                        && res + one.value == RenderAll(RetValRecords(reg, items[..i + 1], full).value))
  {
    var front := RetValRecords(reg, items[..i], full).value;
    var r := VarRecordOf(reg, Plain(items[i].1), LookupRaised, items[i].0, true, RetValAttr, full);
    RetValStep(reg, items, i, full);
    if r.None? {
      RetValFailureSpreads(reg, items, i + 1, full);
    } else {
      RenderAllAppend(front, [r.value]);
      RenderAllSingle(r.value);
    }
  }

  lemma RetValStep(reg: Registry, items: seq<(string, PyObject)>, i: nat, full: bool)
    requires i < |items|
    ensures var front := RetValRecords(reg, items[..i], full);
      var r := VarRecordOf(reg, Plain(items[i].1), LookupRaised, items[i].0, true, RetValAttr, full);
      RetValRecords(reg, items[..i + 1], full)
      == if front.Some? && r.Some? then Some(front.value + [r.value]) else None
  {
    assert items[..i + 1][..i] == items[..i];
  }

  /** `frame_vars_to_xml(frame_f_locals, hidden_ns)` (pydevd_xml.py:233-261). */
  method FrameVarsToXml(h: TypeResolveHandler, locals: map<string, PyObject>, hidden: Option<set<string>>,
                        loadValuesAsync: bool) returns (xml: string)
    requires h.Valid()
    modifies h
    ensures h.Valid()
    ensures xml == FrameXmlOf(h.Config(), locals, hidden, loadValuesAsync)
    ensures h.strProviderCache == old(h.strProviderCache) && h.strCanProvideCalls == old(h.strCanProvideCalls)
    ensures old(h.resolverCache).Keys <= h.resolverCache.Keys && old(h.canProvideCalls) <= h.canProvideCalls
  {
    var ks := SortKeys(locals.Keys);
    xml := "";
    var i := 0;
    while i < |ks|
      invariant 0 <= i <= |ks|
      invariant h.Valid()
      invariant xml == RenderAll(Gather(EntryOf(h.Config(), locals, hidden, loadValuesAsync), ks[..i]))
      invariant h.strProviderCache == old(h.strProviderCache) && h.strCanProvideCalls == old(h.strCanProvideCalls)
      invariant old(h.resolverCache).Keys <= h.resolverCache.Keys && old(h.canProvideCalls) <= h.canProvideCalls
    {
      var k := ks[i];
      assert k in Elems(ks);
      var v := locals[k];
      var full := ShouldEvaluateFullValue(h.rt, loadValuesAsync, v);
      var entry: Option<string>;
      if k == ReturnValuesDict {
        entry := ReturnValuesToXml(h, v, full);
      } else {
        entry := VarToXml(h, Plain(v), k, true, HiddenExtra(k, hidden), full);
      }
      FrameTextStep(h.Config(), locals, hidden, loadValuesAsync, ks, i, xml);
      if entry.Some? {
        xml := xml + entry.value;
      }
      i := i + 1;
    }
    assert ks[..i] == ks;
  }

  /** One more key: the text of its binding is appended, or nothing when
      encoding it raises. */
  lemma FrameTextStep(reg: Registry, locals: map<string, PyObject>, hidden: Option<set<string>>,
                      loadValuesAsync: bool, ks: seq<string>, i: nat, xml: string)
    requires i < |ks| && ks[i] in locals
    requires xml == RenderAll(Gather(EntryOf(reg, locals, hidden, loadValuesAsync), ks[..i]))
    ensures var k := ks[i];
      var full := ShouldEvaluateFullValue(reg.rt, loadValuesAsync, locals[k]);
      var e := if k == ReturnValuesDict then ReturnValuesXmlOf(reg, locals[k], full)
               else VarXmlOf(reg, Plain(locals[k]), LookupRaised, k, true, HiddenExtra(k, hidden), full);
      RenderAll(Gather(EntryOf(reg, locals, hidden, loadValuesAsync), ks[..i + 1]))
      == (if e.Some? then xml + e.value else xml)
  {
    var entryOf := EntryOf(reg, locals, hidden, loadValuesAsync);
    var k := ks[i];
    var r := EntryRecords(reg, k, locals[k], hidden, loadValuesAsync);
    EntryXml(reg, k, locals[k], hidden, loadValuesAsync);
    var front := Gather(entryOf, ks[..i]);
    var more := entryOf(k);
    assert more == (if r.Some? then r.value else []);
    GatherStep(entryOf, ks, i);
    RenderAllAppend(front, more);
    if r.None? {
      assert RenderAll(more) == [];
    }
  }

  lemma GatherStep(entry: string -> seq<VarRecord>, ks: seq<string>, i: nat)
    requires i < |ks|
    ensures Gather(entry, ks[..i + 1]) == Gather(entry, ks[..i]) + entry(ks[i])
  {
    assert ks[..i + 1][..i] == ks[..i] && ks[..i + 1][i] == ks[i];
  }

  /** The text written for one binding is the rendering of its records. */
  lemma EntryXml(reg: Registry, k: string, v: PyObject, hidden: Option<set<string>>, loadValuesAsync: bool)
    ensures var full := ShouldEvaluateFullValue(reg.rt, loadValuesAsync, v);
      var r := EntryRecords(reg, k, v, hidden, loadValuesAsync);
      (if k == ReturnValuesDict then ReturnValuesXmlOf(reg, v, full)
       else VarXmlOf(reg, Plain(v), LookupRaised, k, true, HiddenExtra(k, hidden), full))
      == (if r.Some? then Some(RenderAll(r.value)) else None)
  {
    var full := ShouldEvaluateFullValue(reg.rt, loadValuesAsync, v);
    if k != ReturnValuesDict {
      var rec := VarRecordOf(reg, Plain(v), LookupRaised, k, true, HiddenExtra(k, hidden), full);
      if rec.Some? {
        RenderAllSingle(rec.value);
      }
    }
  }

  // ---------------------------------------------------------------------
  // Properties of the dump

  /** The dump reads back as the records of the sorted keys, in order. */
  lemma FrameDumpReadsBack(reg: Registry, locals: map<string, PyObject>, hidden: Option<set<string>>,
                           loadValuesAsync: bool)
    ensures ParseVars(FrameXmlOf(reg, locals, hidden, loadValuesAsync))
            == Some(FrameRecordsOf(reg, locals, hidden, loadValuesAsync))
  {
    var entry := EntryOf(reg, locals, hidden, loadValuesAsync);
    var ks := SortedKeysOf(locals.Keys);
    forall j, i | 0 <= j < |ks| && 0 <= i < |entry(ks[j])|
      ensures KnownExtra(entry(ks[j])[i].extra)
    {
      var k := ks[j];
      assert k in Elems(ks);
      var r := EntryRecords(reg, k, locals[k], hidden, loadValuesAsync);
      assert r.Some? && entry(k) == r.value;
    }
    GatherKnownExtras(entry, ks);
    ParseRenderAll(Gather(entry, ks));
  }

  lemma SplitAround(ks: seq<string>, i: nat)
    requires i < |ks|
    ensures ks == ks[..i] + [ks[i]] + ks[i + 1..]
  {
  }

  /** Removing a key changes no other key's contribution. */
  lemma EntryOfWithout(reg: Registry, locals: map<string, PyObject>, k: string,
                       hidden: Option<set<string>>, loadValuesAsync: bool, k': string)
    requires k' != k
    ensures EntryOf(reg, locals, hidden, loadValuesAsync)(k') == EntryOf(reg, locals - {k}, hidden, loadValuesAsync)(k')
  {
  }

  lemma GatherDropsEmpty(f: string -> seq<VarRecord>, ks: seq<string>, i: nat)
    requires i < |ks| && f(ks[i]) == []
    ensures Gather(f, ks) == Gather(f, ks[..i] + ks[i + 1..])
  {
    var a, b := ks[..i], ks[i + 1..];
    var ak := a + [ks[i]];
    SplitAround(ks, i);
    GatherSingle(f, ks[i]);
    GatherAppend(f, a, [ks[i]]);
    assert Gather(f, ak) == Gather(f, a);
    GatherAppend(f, ak, b);
    GatherAppend(f, a, b);
  }

  lemma GatherSingle(f: string -> seq<VarRecord>, k: string)
    ensures Gather(f, [k]) == f(k)
  {
    assert [k][..0] == [];
  }

  /** A key whose encoding raises is left out and the others are still
      written: the dump is the one of the locals without that key. */
  lemma FailingKeyIsSkipped(reg: Registry, locals: map<string, PyObject>, k: string,
                            hidden: Option<set<string>>, loadValuesAsync: bool)
    requires k in locals && EntryRecords(reg, k, locals[k], hidden, loadValuesAsync).None?
    ensures FrameRecordsOf(reg, locals, hidden, loadValuesAsync)
            == FrameRecordsOf(reg, locals - {k}, hidden, loadValuesAsync)
  {
    var ks := SortedKeysOf(locals.Keys);
    assert k in Elems(ks);
    var i :| 0 <= i < |ks| && ks[i] == k;
    RemoveKeepsSorted(ks, i);
    var rest := ks[..i] + ks[i + 1..];
    assert (locals - {k}).Keys == locals.Keys - {k};
    SortedUnique(rest, SortedKeysOf((locals - {k}).Keys));
    var f := EntryOf(reg, locals, hidden, loadValuesAsync);
    var g := EntryOf(reg, locals - {k}, hidden, loadValuesAsync);
    assert f(k) == [];
    GatherDropsEmpty(f, ks, i);
    forall j | 0 <= j < |rest|
      ensures f(rest[j]) == g(rest[j])
    {
      assert rest[j] in Elems(rest);
      EntryOfWithout(reg, locals, k, hidden, loadValuesAsync, rest[j]);
    }
    GatherAgrees(f, g, rest);
  }
}
