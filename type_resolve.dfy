/** Type classification (pydevd_xml.py:33-198, CPython branch): which
    resolver, if any, describes a value's type, decided by the registered
    resolve providers first, then by the ordered default type map, then by
    the default resolver; and which string-presentation provider, if any,
    renders it. `TypeResolveHandler` keeps both answers in per-type caches. */
module TypeResolve {
  import opened PyObjects

  /** What one `can_provide` call does: answer yes, answer no, or raise. */
  datatype Answer = Yes | No | Raises

  /** The first `n` answers are all no. */
  predicate NoBefore(answers: seq<Answer>, n: nat) {
    n <= |answers| && forall k :: 0 <= k < n ==> answers[k] == No
  }

  predicate AllNo(answers: seq<Answer>) {
    NoBefore(answers, |answers|)
  }

  /** Where a first-match scan over an ordered list stopped: at the first
      yes, at the first raise, or after the last entry. */
  datatype Scan = Found(index: nat) | Failed(index: nat) | Exhausted

  /** The scan both registries and the default type map use: entries are
      asked in order and the first that does not answer no ends it. */
  function FirstHit(answers: seq<Answer>): (s: Scan)
    ensures s.Found? ==> s.index < |answers| && answers[s.index] == Yes && NoBefore(answers, s.index)
    ensures s.Failed? ==> s.index < |answers| && answers[s.index] == Raises && NoBefore(answers, s.index)
    ensures s.Exhausted? <==> AllNo(answers)
  {
    if answers == [] then Exhausted
    else match answers[0]
      case Yes => Found(0)
      case Raises => Failed(0)
      case No =>
        var rest := answers[1..];
        assert forall k :: 1 <= k < |answers| ==> answers[k] == rest[k - 1];
        match FirstHit(rest)
        case Found(i) => Found(i + 1)
        case Failed(i) => Failed(i + 1)
        case Exhausted => Exhausted
  }

  /** The first yes, with only no before it, is where the scan stops. */
  lemma FirstHitFound(answers: seq<Answer>, i: nat)
    requires i < |answers| && answers[i] == Yes && NoBefore(answers, i)
    ensures FirstHit(answers) == Found(i)
  {
  }

  /** The first raise, with only no before it, is where the scan stops. */
  lemma FirstHitFailed(answers: seq<Answer>, i: nat)
    requires i < |answers| && answers[i] == Raises && NoBefore(answers, i)
    ensures FirstHit(answers) == Failed(i)
  {
  }

  /** How many entries a scan asked before it stopped. */
  function Asked(s: Scan, n: nat): nat {
    match s
    case Found(i) => i + 1
    case Failed(i) => i + 1
    case Exhausted => n
  }

  /** The resolvers of pydevd_resolver the CPython type map names, the
      default resolver, and the resolver a resolve provider supplies
      (`Provided(i)` is the i-th registered provider object itself). */
  datatype Resolver =
    | TupleResolver | DictResolver | SetResolver | DequeResolver | FrameResolver
    | DefaultResolver
    | Provided(index: nat)

  /** An entry of `_default_type_map`: a type and its resolver, None for
      types that are not shown as compound. */
  type TypeMapEntry = (PyType, Option<Resolver>)

  /** `_default_type_map` on CPython 3 (pydevd_xml.py:35-92): the Python 2
      `long`/`unicode` entries and the optional Django entries are absent. */
  const DefaultTypeMap: seq<TypeMapEntry> := [
    (NoneType, None), (Int, None), (Float, None), (Complex, None), (Str, None),
    (Tuple, Some(TupleResolver)), (List, Some(TupleResolver)), (Dict, Some(DictResolver)),
    (Set, Some(SetResolver)), (FrozenSet, Some(SetResolver)),
    (Deque, Some(DequeResolver)), (Frame, Some(FrameResolver))]

  /** A registered TypeResolveProvider: its `can_provide(type, type_name)`
      and its `use_value_repr_instead_of_str` attribute. */
  datatype ResolveProvider = ResolveProvider(
    canProvide: (PyType, string) -> Answer,
    useValueRepr: bool)

  /** A registered StrPresentationProvider: `can_provide(type, type_name)`
      and `get_str(o)` (None when it raises). */
  datatype StrProvider = StrProvider(
    canProvide: (PyType, string) -> Answer,
    getStr: PyObject -> Option<string>)

  /** Everything classification consults: the runtime, the two provider
      lists in registration order, the default type map, and whether each
      built-in resolver has `use_value_repr_instead_of_str` set. */
  datatype Registry = Registry(
    rt: Runtime,
    resolveProviders: seq<ResolveProvider>,
    strProviders: seq<StrProvider>,
    typeMap: seq<TypeMapEntry>,
    builtinUsesRepr: Resolver -> bool)

  /** `can_provide(type, name)` asked of each type-resolve provider, in
      registration order (pydevd_xml.py:151-152). */
  function ProviderAnswers(ps: seq<ResolveProvider>, t: PyType, name: string): seq<Answer> {
    seq(|ps|, i requires 0 <= i < |ps| => ps[i].canProvide(t, name))
  }

  /** The same question asked of each str provider (pydevd_xml.py:192-193). */
  function StrAnswers(ps: seq<StrProvider>, t: PyType, name: string): seq<Answer> {
    seq(|ps|, i requires 0 <= i < |ps| => ps[i].canProvide(t, name))
  }

  /** `isinstance(o, entry[0])` for each entry of the type map, in order. */
  function TypeMapAnswers(rt: Runtime, m: seq<TypeMapEntry>, t: PyType): seq<Answer> {
    seq(|m|, i requires 0 <= i < |m| => if rt.isSubclass(t, m[i].0) then Yes else No)
  }

  /** The resolver `_get_type` settles on when it has to scan
      (pydevd_xml.py:150-169). */
  function Classify(reg: Registry, t: PyType, name: string): Option<Resolver> {
    match FirstHit(ProviderAnswers(reg.resolveProviders, t, name))
    case Found(i) => Some(Provided(i))
    case Failed(_) => Some(DefaultResolver)
    case Exhausted =>
      match FirstHit(TypeMapAnswers(reg.rt, reg.typeMap, t))
      case Found(j) => reg.typeMap[j].1
      case _ => Some(DefaultResolver)
  }

  /** `getattr(resolver, 'use_value_repr_instead_of_str', False)`: a
      provider's own attribute, or the built-in resolver's. */
  function UsesValueRepr(reg: Registry, r: Resolver): bool {
    match r
    case Provided(i) => i < |reg.resolveProviders| && reg.resolveProviders[i].useValueRepr
    case _ => reg.builtinUsesRepr(r)
  }

  /** Providers are asked before the type map: the first provider that says
      yes wins even when a type-map entry would also match. */
  lemma ProviderWins(reg: Registry, t: PyType, name: string, i: nat)
    requires i < |reg.resolveProviders|
    requires reg.resolveProviders[i].canProvide(t, name) == Yes
    requires forall j :: 0 <= j < i ==> reg.resolveProviders[j].canProvide(t, name) == No
    ensures Classify(reg, t, name) == Some(Provided(i))
  {
    FirstHitFound(ProviderAnswers(reg.resolveProviders, t, name), i);
  }

  /** A provider whose `can_provide` raises ends the scan: the type gets the
      default resolver, whatever later providers or the type map say. */
  lemma RaisingProviderGivesDefault(reg: Registry, t: PyType, name: string, i: nat)
    requires i < |reg.resolveProviders|
    requires reg.resolveProviders[i].canProvide(t, name) == Raises
    requires forall j :: 0 <= j < i ==> reg.resolveProviders[j].canProvide(t, name) == No
    ensures Classify(reg, t, name) == Some(DefaultResolver)
  {
    FirstHitFailed(ProviderAnswers(reg.resolveProviders, t, name), i);
  }

  /** With no provider claiming the type, the first type-map entry the value
      is an instance of decides, subclasses inheriting their base's entry. */
  lemma FirstTypeMapEntryWins(reg: Registry, t: PyType, name: string, j: nat)
    requires forall i :: 0 <= i < |reg.resolveProviders| ==> reg.resolveProviders[i].canProvide(t, name) == No
    requires j < |reg.typeMap| && reg.rt.isSubclass(t, reg.typeMap[j].0)
    requires forall k :: 0 <= k < j ==> !reg.rt.isSubclass(t, reg.typeMap[k].0)
    ensures Classify(reg, t, name) == reg.typeMap[j].1
  {
    FirstHitFound(TypeMapAnswers(reg.rt, reg.typeMap, t), j);
  }

  /** A type nothing claims gets the default resolver. */
  lemma UnmatchedTypeGetsDefault(reg: Registry, t: PyType, name: string)
    requires forall i :: 0 <= i < |reg.resolveProviders| ==> reg.resolveProviders[i].canProvide(t, name) == No
    requires forall k :: 0 <= k < |reg.typeMap| ==> !reg.rt.isSubclass(t, reg.typeMap[k].0)
    ensures Classify(reg, t, name) == Some(DefaultResolver)
  {
  }

  /** No resolver means every provider said no and the first matching type
      map entry carries none. */
  lemma ClassifyNone(reg: Registry, t: PyType, name: string)
    requires Classify(reg, t, name).None?
    ensures AllNo(ProviderAnswers(reg.resolveProviders, t, name))
    ensures exists j :: 0 <= j < |reg.typeMap| && reg.typeMap[j].1.None? && reg.rt.isSubclass(t, reg.typeMap[j].0)
  {
    var j := FirstHit(TypeMapAnswers(reg.rt, reg.typeMap, t)).index;
    assert TypeMapAnswers(reg.rt, reg.typeMap, t)[j] == Yes;
  }

  /** With the CPython type map, only instances of NoneType, int, float,
      complex and str are left without a resolver. */
  lemma OnlyScalarsLackResolver(reg: Registry, t: PyType, name: string)
    requires reg.typeMap == DefaultTypeMap
    requires Classify(reg, t, name).None?
    ensures forall i :: 0 <= i < |reg.resolveProviders| ==> reg.resolveProviders[i].canProvide(t, name) == No
    ensures exists s :: s in [NoneType, Int, Float, Complex, Str] && reg.rt.isSubclass(t, s)
  {
    var answers := ProviderAnswers(reg.resolveProviders, t, name);
    ClassifyNone(reg, t, name);
    forall i | 0 <= i < |reg.resolveProviders|
      ensures reg.resolveProviders[i].canProvide(t, name) == No
    {
      assert answers[i] == No;
    }
    var j :| 0 <= j < |DefaultTypeMap| && DefaultTypeMap[j].1.None? && reg.rt.isSubclass(t, DefaultTypeMap[j].0);
    assert j < 5;
    assert DefaultTypeMap[j].0 in [NoneType, Int, Float, Complex, Str];
  }

  /** Where `get_type`'s answer names the type: a type object, or the
      'Unable to get Type' text when the type's name cannot be read. */
  datatype TypeRef = Known(t: PyType) | NameUnavailable

  /** The triple `get_type` returns: (type object, type name, resolver). */
  datatype TypeInfo = TypeInfo(typeObject: TypeRef, typeName: string, resolver: Option<Resolver>)

  const UnableToGetType: string := "Unable to get Type"

  /** What `get_type(o)` returns whatever the caches hold
      (pydevd_xml.py:129-169). */
  function TypeInfoOf(reg: Registry, o: PyObject): TypeInfo {
    var t := TypeObjectOf(o);
    match reg.rt.typeName(t)
    case None => TypeInfo(NameUnavailable, UnableToGetType, None)
    case Some(name) => TypeInfo(Known(t), name, Classify(reg, t, name))
  }

  /** The outcome of looking for a string-presentation provider: the lookup
      raised, no provider applies, a provider's text, or (on a cached hit)
      the cached provider object itself. */
  datatype StrLookup = LookupRaised | NoStr | StrText(text: string) | ProviderObject(index: nat)

  /** An entry of `_type_to_str_provider_cache`: the NO_PROVIDER sentinel or
      a provider (as its index in the registration list). */
  datatype StrCacheEntry = NoProviderSentinel | CachedProvider(index: nat)

  /** What a completed scan of the string providers stores in the cache; a
      scan that raised stores nothing. */
  function StrEntryAfterScan(reg: Registry, t: PyType, name: string): Option<StrCacheEntry> {
    StrEntryOf(FirstHit(StrAnswers(reg.strProviders, t, name)))
  }

  /** The cache entry a scan leaves: the provider that said yes, the
      sentinel after a full miss, nothing when a provider raised. */
  function StrEntryOf(s: Scan): Option<StrCacheEntry> {
    match s
    case Found(i) => Some(CachedProvider(i))
    case Exhausted => Some(NoProviderSentinel)
    case Failed(_) => None
  }

  /** What `str_from_providers` returns when the cache holds nothing for the
      type (pydevd_xml.py:192-198). */
  function StrLookupByScan(reg: Registry, o: PyObject, t: PyType, name: string): StrLookup {
    match FirstHit(StrAnswers(reg.strProviders, t, name))
    case Found(i) =>
      (match reg.strProviders[i].getStr(o)
       case Some(s) => StrText(s)
       case None => LookupRaised)
    case Exhausted => NoStr
    case Failed(_) => LookupRaised
  }

  /** What `str_from_providers` returns on a cache hit (pydevd_xml.py:186-190):
      None for the sentinel, otherwise the provider object, not its text. */
  function StrLookupCached(e: StrCacheEntry): StrLookup {
    match e
    case NoProviderSentinel => NoStr
    case CachedProvider(i) => ProviderObject(i)
  }

  class TypeResolveHandler {
    const rt: Runtime
    const defaultTypeMap: seq<TypeMapEntry>
    const resolveProviders: seq<ResolveProvider>
    const strProviders: seq<StrProvider>
    const builtinUsesRepr: Resolver -> bool

    var resolverCache: map<PyType, Option<Resolver>>
    var strProviderCache: map<PyType, StrCacheEntry>

    /** How many `can_provide` calls each registry has received. */
    ghost var canProvideCalls: nat
    ghost var strCanProvideCalls: nat

    function Config(): Registry {
      Registry(rt, resolveProviders, strProviders, defaultTypeMap, builtinUsesRepr)
    }

    /** Every cached entry is what a fresh scan would produce, so the caches
        never change an answer, only how many providers get asked. */
    ghost predicate Valid()
      reads this
    {
      && (forall t :: t in resolverCache ==>
            rt.typeName(t).Some? && resolverCache[t] == Classify(Config(), t, rt.typeName(t).value))
      && (forall t :: t in strProviderCache ==>
            rt.typeName(t).Some? && StrEntryAfterScan(Config(), t, rt.typeName(t).value) == Some(strProviderCache[t]))
    }

    /** `__init__` (pydevd_xml.py:119-127): the provider lists are the
        registered extensions, the type map is the module's, caches empty. */
    constructor (rt: Runtime, resolveProviders: seq<ResolveProvider>, strProviders: seq<StrProvider>,
                 builtinUsesRepr: Resolver -> bool)
      ensures Config() == Registry(rt, resolveProviders, strProviders, DefaultTypeMap, builtinUsesRepr)
      ensures resolverCache == map[] && strProviderCache == map[]
      ensures canProvideCalls == 0 && strCanProvideCalls == 0
      ensures Valid()
    {
      this.rt := rt;
      this.defaultTypeMap := DefaultTypeMap;
      this.resolveProviders := resolveProviders;
      this.strProviders := strProviders;
      this.builtinUsesRepr := builtinUsesRepr;
      resolverCache := map[];
      strProviderCache := map[];
      canProvideCalls := 0;
      strCanProvideCalls := 0;
    }

    /** `get_type` with `_get_type` (pydevd_xml.py:129-169). The answer is
        the cache-free classification; a cached non-None resolver is returned
        without asking any provider, while a cached None counts as a miss, so
        scalar types are scanned again on every call. */
    method GetType(o: PyObject) returns (info: TypeInfo)
      requires Valid()
      modifies this
      ensures Valid()
      ensures info == TypeInfoOf(Config(), o)
      ensures strProviderCache == old(strProviderCache) && strCanProvideCalls == old(strCanProvideCalls)
      ensures var t := TypeObjectOf(o);
        if rt.typeName(t).None? then
          resolverCache == old(resolverCache) && canProvideCalls == old(canProvideCalls)
        else if t in old(resolverCache) && old(resolverCache)[t].Some? then
          resolverCache == old(resolverCache) && canProvideCalls == old(canProvideCalls)
        else
          resolverCache == old(resolverCache)[t := info.resolver]
          && canProvideCalls == old(canProvideCalls)
             + Asked(FirstHit(ProviderAnswers(resolveProviders, t, info.typeName)), |resolveProviders|)
    {
      var t := TypeObjectOf(o);
      var typeName := rt.typeName(t);
      if typeName.None? {
        return TypeInfo(NameUnavailable, UnableToGetType, None);
      }
      var name := typeName.value;
      if t in resolverCache && resolverCache[t].Some? {
        return TypeInfo(Known(t), name, resolverCache[t]);
      }
      var resolver := ClassifyAndCache(t, name);
      info := TypeInfo(Known(t), name, resolver);
    }

    /** The cache-miss path of `_get_type` (pydevd_xml.py:156-169): ask the
        providers, then the type map, and cache what was found. */
    method ClassifyAndCache(t: PyType, name: string) returns (resolver: Option<Resolver>)
      requires Valid() && rt.typeName(t) == Some(name)
      modifies this
      ensures Valid()
      ensures resolver == Classify(Config(), t, name)
      ensures resolverCache == old(resolverCache)[t := resolver]
      ensures canProvideCalls == old(canProvideCalls)
        + Asked(FirstHit(ProviderAnswers(resolveProviders, t, name)), |resolveProviders|)
      ensures strProviderCache == old(strProviderCache) && strCanProvideCalls == old(strCanProvideCalls)
    {
      var scan := ScanResolveProviders(resolveProviders, t, name);
      match scan {
        case Found(i) =>
          resolver := Some(Provided(i));
        case Failed(_) =>
          resolver := Some(DefaultResolver);
        case Exhausted =>
          var entry := ScanTypeMap(rt, defaultTypeMap, t);
          resolver := if entry.Found? then defaultTypeMap[entry.index].1 else Some(DefaultResolver);
      }
      RecordResolver(t, name, scan, resolver);
    }

    /** Counts the providers a scan asked and caches the resolver it led to. */
    method RecordResolver(t: PyType, name: string, scan: Scan, resolver: Option<Resolver>)
      requires Valid() && rt.typeName(t) == Some(name)
      requires resolver == Classify(Config(), t, name)
      modifies this
      ensures Valid()
      ensures resolverCache == old(resolverCache)[t := resolver]
      ensures canProvideCalls == old(canProvideCalls) + Asked(scan, |resolveProviders|)
      ensures strProviderCache == old(strProviderCache) && strCanProvideCalls == old(strCanProvideCalls)
    {
      canProvideCalls := canProvideCalls + Asked(scan, |resolveProviders|);
      resolverCache := resolverCache[t := resolver];
    }

    /** `str_from_providers` (pydevd_xml.py:183-198), for a type whose name
        is `name`. A first lookup scans the string providers in order and
        caches the first that says yes, returning its `get_str(o)`; a full
        miss caches the NO_PROVIDER sentinel. Afterwards no provider is
        asked again: the sentinel gives None, a cached provider is returned
        as the provider object itself. */
    method StrFromProviders(o: PyObject, t: PyType, name: string) returns (r: StrLookup)
      requires Valid()
      requires rt.typeName(t) == Some(name)
      modifies this
      ensures Valid()
      ensures resolverCache == old(resolverCache) && canProvideCalls == old(canProvideCalls)
      ensures t in old(strProviderCache) ==>
        r == StrLookupCached(old(strProviderCache)[t])
        && strProviderCache == old(strProviderCache) && strCanProvideCalls == old(strCanProvideCalls)
      ensures t !in old(strProviderCache) ==>
        r == StrLookupByScan(Config(), o, t, name)
        && strCanProvideCalls == old(strCanProvideCalls)
           + Asked(FirstHit(StrAnswers(strProviders, t, name)), |strProviders|)
        && strProviderCache == match StrEntryAfterScan(Config(), t, name)
                               case Some(e) => old(strProviderCache)[t := e]
                               case None => old(strProviderCache)
    {
      if t in strProviderCache {
        match strProviderCache[t]
        case NoProviderSentinel => return NoStr;
        case CachedProvider(i) => return ProviderObject(i);
      }
      r := ScanAndCacheStr(o, t, name);
    }

    /** The cache-miss path of `str_from_providers` (pydevd_xml.py:192-198). */
    method ScanAndCacheStr(o: PyObject, t: PyType, name: string) returns (r: StrLookup)
      requires Valid() && rt.typeName(t) == Some(name)
      modifies this
      ensures Valid()
      ensures resolverCache == old(resolverCache) && canProvideCalls == old(canProvideCalls)
      ensures r == StrLookupByScan(Config(), o, t, name)
      ensures strCanProvideCalls == old(strCanProvideCalls)
        + Asked(FirstHit(StrAnswers(strProviders, t, name)), |strProviders|)
      ensures strProviderCache == match StrEntryAfterScan(Config(), t, name)
                                  case Some(e) => old(strProviderCache)[t := e]
                                  case None => old(strProviderCache)
    {
      var scan := ScanStrProviders(strProviders, t, name);
      RecordStrScan(t, name, scan);
      if scan.Found? {
        var text := strProviders[scan.index].getStr(o);
        r := if text.Some? then StrText(text.value) else LookupRaised;
      } else {
        r := if scan.Exhausted? then NoStr else LookupRaised;
      }
    }

    /** Counts the providers a scan asked and caches what it found. */
    method RecordStrScan(t: PyType, name: string, scan: Scan)
      requires Valid() && rt.typeName(t) == Some(name)
      requires scan == FirstHit(StrAnswers(strProviders, t, name))
      modifies this
      ensures Valid()
      ensures resolverCache == old(resolverCache) && canProvideCalls == old(canProvideCalls)
      ensures strCanProvideCalls == old(strCanProvideCalls) + Asked(scan, |strProviders|)
      ensures strProviderCache == match StrEntryOf(scan)
                                  case Some(e) => old(strProviderCache)[t := e]
                                  case None => old(strProviderCache)
    {
      strCanProvideCalls := strCanProvideCalls + Asked(scan, |strProviders|);
      var e := StrEntryOf(scan);
      if e.Some? {
        strProviderCache := strProviderCache[t := e.value];
      }
    }
  }

  /** The provider loop of `_get_type` (pydevd_xml.py:156-160): the resolve
      providers are asked in registration order until one says yes or raises. */
  method ScanResolveProviders(ps: seq<ResolveProvider>, t: PyType, name: string) returns (s: Scan)
    ensures s == FirstHit(ProviderAnswers(ps, t, name))
  {
    ghost var answers := ProviderAnswers(ps, t, name);
    var i := 0;
    while i < |ps|
      invariant 0 <= i <= |ps|
      invariant NoBefore(answers, i)
    {
      var answer := ps[i].canProvide(t, name);
      if answer == Yes {
        FirstHitFound(answers, i);
        return Found(i);
      } else if answer == Raises {
        FirstHitFailed(answers, i);
        return Failed(i);
      }
      i := i + 1;
    }
    return Exhausted;
  }

  /** The type-map loop of `_get_type` (pydevd_xml.py:162-167): the first
      entry whose type the object is an instance of. */
  method ScanTypeMap(rt: Runtime, m: seq<TypeMapEntry>, t: PyType) returns (s: Scan)
    ensures s == FirstHit(TypeMapAnswers(rt, m, t))
  {
    ghost var answers := TypeMapAnswers(rt, m, t);
    var j := 0;
    while j < |m|
      invariant 0 <= j <= |m|
      invariant NoBefore(answers, j)
    {
      if rt.isSubclass(t, m[j].0) {
        FirstHitFound(answers, j);
        return Found(j);
      }
      j := j + 1;
    }
    return Exhausted;
  }

  /** The provider loop of `str_from_providers` (pydevd_xml.py:192-195). */
  method ScanStrProviders(ps: seq<StrProvider>, t: PyType, name: string) returns (s: Scan)
    ensures s == FirstHit(StrAnswers(ps, t, name))
  {
    ghost var answers := StrAnswers(ps, t, name);
    var i := 0;
    while i < |ps|
      invariant 0 <= i <= |ps|
      invariant NoBefore(answers, i)
    {
      var answer := ps[i].canProvide(t, name);
      if answer == Yes {
        FirstHitFound(answers, i);
        return Found(i);
      } else if answer == Raises {
        FirstHitFailed(answers, i);
        return Failed(i);
      }
      i := i + 1;
    }
    return Exhausted;
  }
}
