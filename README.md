# pydevd variable encoding, modelled in Dafny

A model of how the PyDev debugger (`pydevd`) turns the variables of a Python
frame into the `<var .../>` XML records it sends to the IDE. It also models
the numpy extension that tells the IDE how to expand an `ndarray`.

- **`TypeResolveHandler`** decides each value's *resolver*. It asks the
  registered `TypeResolveProvider` extensions first and then the default type
  map, which maps types to resolvers. It caches the answer per type object.
  `str_from_providers` looks up a `StrPresentationProvider` and caches that
  lookup the same way. The handler is a class whose two caches are fields.
  Each cache entry is proved to be what a fresh scan would store (`Classify`
  for resolvers, `StrEntryAfterScan` for string providers), so `get_type`
  returns the same answer with or without the cache. `str_from_providers`
  does not: a cache hit returns the provider object itself rather than its
  text (`StrLookupCached`), and only a miss gives `StrLookupByScan`.
  Ghost counters record how many `can_provide` calls each lookup makes.
- **`var_to_xml`** chooses the value text. The candidates are:
  - the asynchronous placeholder;
  - a provider string;
  - a frame name;
  - `Class: value`, or a length notice for a list, tuple or dict above 300
    items;
  - a repr fallback.

  The text is trimmed to 1000 characters plus `...`, URL-quoted and
  XML-escaped. The record then gets its type name, module qualifier, flags
  and extra attribute. Each record is modelled as a value (`VarRecord`) plus
  its rendering. A parser is proved to read back every rendering whose
  extra attribute is one the source passes: none, ` isRetVal="True"` or
  ` isIPythonHidden="True"` (pydevd_xml.py:229, 254, 256).
- **`frame_vars_to_xml`** and **`return_values_from_dict_to_xml`** are
  imperative loops over the handler.
  - `frame_vars_to_xml` lists the locals in sorted key order (`KeyOrder`
    models Python's `str` order and `sorted`).
  - The reserved return-values entry is expanded into one record per
    returned value.
  - Names in the hidden namespace are tagged.
  - A binding whose encoding raises is left out.

  Both loops are proved equal to specification functions. The dump is proved
  to read back as the list of records.
- **`NDArrayTypeResolveProvider`**:
  - `can_provide` claims subclasses of `numpy.ndarray`, when numpy can be
    imported.
  - `is_numeric` holds for dtype kinds `b i u f c`.
  - `resolve` gives one named child or builds the rows container. The
    container labels rows with zero-padded indices. It stops after the 301st
    row and then sets the "too large" marker.
  - `get_dictionary` builds the seven-entry summary.

Python objects are opaque values (`PyObjects.PyObject`). The runtime
questions the code asks are parameters (`PyObjects.Runtime`): `issubclass`,
`__name__`, `__module__` and `str` of a class. A value's `str`, `repr`,
`len`, frame name and dict items are given with the object, and `None`
stands for "raises".

Two things in the source are modelled as written:
- Line 281 of `pydevd_xml.py` calls `TypeResolveHandler.instance()`, which
  the class does not define. Evaluating a value therefore always takes the
  `except` path of lines 313-317: the value is `repr(v)`, or
  `'Unable to get repr for <class>'`.
  - The handler-based methods pass `LookupRaised` for this reason.
  - `VarXml.AsWrittenValueIsRepr` and `VarXml.AsWrittenUnreadableRaises`
    state the consequence.
  - The other branches of lines 282-312 are still modelled: they apply to
    the `StrLookup` outcomes `NoStr`, `StrText` and `ProviderObject`.
- In `frame_vars_to_xml` the `eval_full_val` flag of the return-values entry
  is computed on the dict itself, not on each returned value. One value that
  raises drops the whole entry.

Constants come from modules that are not part of this model
(`pydevd_constants`, `pydevd_resolver`). They are in `Constants`:

| constant | value |
|---|---|
| `MAXIMUM_VARIABLE_REPRESENTATION_SIZE` | 1000 |
| `DEFAULT_VALUE` | `__pydevd_value_async` |
| `RETURN_VALUES_DICT` | `__pydevd_ret_val_dict` |
| `BUILTINS_MODULE_NAME` | `builtins` |
| `MAX_ITEMS_TO_HANDLE` | 300 |
| `TOO_LARGE_ATTR` | `Unable to handle:` |
| `TOO_LARGE_MSG` | `Too large to show contents. Max items to show: 300` |

`LOAD_VALUES_ASYNC` is a parameter. `quote(s, '/>_= ')` is modelled as
Python 3's `urllib.parse.quote`:
- always-safe characters are ASCII letters, digits and `_.-~`, plus the
  given safe set;
- every other character becomes the `%XX` escapes of its UTF-8 bytes,
  upper-case.

## Model

| member | source | states |
|---|---|---|
| XmlEscape.MakeValidXmlValue | python/helpers/pydev/_pydevd_bundle/pydevd_xml.py:21-22 | the result holds no `<`, `>` or `"`; text without markup characters is unchanged; never shorter; empty exactly for empty input |
| XmlEscape.EscapeRoundTrip | python/helpers/pydev/_pydevd_bundle/pydevd_xml.py:21-22 | decoding the entities of `make_valid_xml_value(s)` gives back `s`, so escaping loses nothing |
| XmlEscape.Quote | python/helpers/pydev/_pydevd_bundle/pydevd_xml.py:320 | every output character is `%` or a safe character; characters that are already safe pass unchanged; never shorter; empty exactly for empty input |
| XmlEscape.QuoteRoundTrip | python/helpers/pydev/_pydevd_bundle/pydevd_xml.py:348 | percent-decoding (UTF-8) the quoted text gives back the original text |
| TypeResolve.FirstHit | python/helpers/pydev/_pydevd_bundle/pydevd_xml.py:150-163 | a scan stops at the first yes, after only no answers (Found), or at the first raise (Failed); it is Exhausted exactly when all answer no |
| TypeResolve.FirstHitFound | python/helpers/pydev/_pydevd_bundle/pydevd_xml.py:151-155 | a yes at i, preceded only by no answers, is the scan's hit |
| TypeResolve.FirstHitFailed | python/helpers/pydev/_pydevd_bundle/pydevd_xml.py:150-164 | a raise at i, preceded only by no answers, ends the scan as failed |
| TypeResolve.ProviderWins | python/helpers/pydev/_pydevd_bundle/pydevd_xml.py:151-155 | the first provider that accepts the type, after providers that decline, is the resolver |
| TypeResolve.RaisingProviderGivesDefault | python/helpers/pydev/_pydevd_bundle/pydevd_xml.py:150-169 | a provider that raises before any accepts makes the resolver `defaultResolver`, and the type map is skipped |
| TypeResolve.FirstTypeMapEntryWins | python/helpers/pydev/_pydevd_bundle/pydevd_xml.py:157-162 | when every provider declines, the first matching type-map entry gives the resolver, which may be None |
| TypeResolve.UnmatchedTypeGetsDefault | python/helpers/pydev/_pydevd_bundle/pydevd_xml.py:166-169 | no provider and no type-map entry gives `defaultResolver` |
| TypeResolve.ClassifyNone | python/helpers/pydev/_pydevd_bundle/pydevd_xml.py:145-169 | a None resolver means every provider declined and a matching type-map entry maps to None |
| TypeResolve.OnlyScalarsLackResolver | python/helpers/pydev/_pydevd_bundle/pydevd_xml.py:35-47 | with the default type map, only instances of NoneType, int, float, complex or str get no resolver (are not containers) |
| TypeResolve.TypeResolveHandler.constructor | python/helpers/pydev/_pydevd_bundle/pydevd_xml.py:119-127 | the handler holds the providers and the default type map, and both caches start empty |
| TypeResolve.TypeResolveHandler.GetType | python/helpers/pydev/_pydevd_bundle/pydevd_xml.py:129-148 | returns the type, name and resolver the cache-independent classification gives. An unreadable name gives 'Unable to get Type' and no cache change. A cached non-None resolver asks no provider. Otherwise the result is cached and the providers up to the first hit are asked |
| TypeResolve.TypeResolveHandler.ClassifyAndCache | python/helpers/pydev/_pydevd_bundle/pydevd_xml.py:150-169 | the cache miss: the resolver is the classification of the type, it is stored for the type, and the str cache is untouched |
| TypeResolve.TypeResolveHandler.RecordResolver | python/helpers/pydev/_pydevd_bundle/pydevd_xml.py:154-168 | stores the classified resolver for the type, counts the providers asked, and leaves the str cache alone |
| TypeResolve.TypeResolveHandler.StrFromProviders | python/helpers/pydev/_pydevd_bundle/pydevd_xml.py:183-198 | a cached sentinel gives None and a cached provider is returned as the provider object, both asking nobody. A first lookup scans in order, returns the first accepting provider's `get_str(o)` and caches it, or caches the sentinel on a full miss |
| TypeResolve.TypeResolveHandler.ScanAndCacheStr | python/helpers/pydev/_pydevd_bundle/pydevd_xml.py:192-198 | the first lookup of a type: its result is the scan's outcome and the cache gets the scan's entry |
| TypeResolve.TypeResolveHandler.RecordStrScan | python/helpers/pydev/_pydevd_bundle/pydevd_xml.py:192-197 | caches the provider found or the sentinel, and counts the providers asked |
| TypeResolve.ScanResolveProviders | python/helpers/pydev/_pydevd_bundle/pydevd_xml.py:151-155 | the loop over resolve providers returns the first hit of their answers |
| TypeResolve.ScanTypeMap | python/helpers/pydev/_pydevd_bundle/pydevd_xml.py:157-162 | the loop over the type map returns the first matching entry |
| TypeResolve.ScanStrProviders | python/helpers/pydev/_pydevd_bundle/pydevd_xml.py:192-195 | the loop over str providers returns the first hit of their answers |
| VarXml.ShortClassName | python/helpers/pydev/_pydevd_bundle/pydevd_xml.py:294-305 | the short name has no `.`, is a suffix of the class text (before a closing `'>`), is the whole text when that has no `.` or `'`, and for a dotted text is exactly what follows the last `.` (before a closing `'>`) |
| VarXml.ShortClassNameOfDotted | python/helpers/pydev/_pydevd_bundle/pydevd_xml.py:295-303 | `<class 'pkg.mod.Name'>` shortens to `Name` |
| VarXml.ShortClassNameOfQuoted | python/helpers/pydev/_pydevd_bundle/pydevd_xml.py:299-303 | `<type 'int'>` shortens to `int` |
| VarXml.ReprFallback | python/helpers/pydev/_pydevd_bundle/pydevd_xml.py:313-317 | the fallback gives `repr(v)` when it succeeds, otherwise `Unable to get repr for <class>`, and raises exactly when both `repr(v)` and `v.__class__` raise |
| VarXml.Trim | python/helpers/pydev/_pydevd_bundle/pydevd_xml.py:331-335 | with trimming, text over 1000 characters becomes its first 1000 plus `...`; other text is unchanged; empty stays empty |
| VarXml.FlagOf | python/helpers/pydev/_pydevd_bundle/pydevd_xml.py:352-358 | isErrorOnEval exactly for an ExceptionOnEvaluate wrapper; isContainer exactly for other values with a resolver |
| VarXml.VarRecordOf | python/helpers/pydev/_pydevd_bundle/pydevd_xml.py:264-317 | a record carries the given name, extra attribute, the type name, module qualifier and flag of the unwrapped value, and trimmed text of at most 1003 characters; without full evaluation it always exists and holds the placeholder value |
| VarXml.ParseRenderOnto | python/helpers/pydev/_pydevd_bundle/pydevd_xml.py:324-360 | a rendered record with one of those three extra attributes, followed by any text, parses back to the record and that text |
| VarXml.ParseRenderAll | python/helpers/pydev/_pydevd_bundle/pydevd_xml.py:245-261 | concatenated records, each with one of those three extra attributes, parse back to the same list |
| VarXml.VarXmlReadsBack | python/helpers/pydev/_pydevd_bundle/pydevd_xml.py:264-360 | the XML of one variable reads back as its name, type name, qualifier, trimmed value and flag |
| VarXml.AsWrittenValueIsRepr | python/helpers/pydev/_pydevd_bundle/pydevd_xml.py:280-315 | because line 281 raises, a fully evaluated value is written as `repr(v)`, trimmed |
| VarXml.AsWrittenUnreadableRaises | python/helpers/pydev/_pydevd_bundle/pydevd_xml.py:313-317 | when `repr(v)` and `v.__class__` both raise, var_to_xml raises |
| VarXml.TooBigShowsLength | python/helpers/pydev/_pydevd_bundle/pydevd_xml.py:288-290 | a list, tuple or dict of over 300 items is shown as `<class>: <Too big to print. Len: n>`, and n reads back as its length |
| VarXml.SubclassOfListIsShownInFull | python/helpers/pydev/_pydevd_bundle/pydevd_xml.py:288-310 | the length cap applies only when `__class__` is exactly list, tuple or dict: for any other class the text is the same whatever its length, for every resolver and string lookup, and with no provider string it is `Short: ` followed by `str(v)`, or `repr(v)` when the resolver asks for repr |
| VarXml.ReprOnlyWhenResolverAsks | python/helpers/pydev/_pydevd_bundle/pydevd_xml.py:307-310 | an instance is shown with `repr` exactly when its resolver sets `use_value_repr_instead_of_str`, and with `str` otherwise |
| FrameXml.RetValRecords | python/helpers/pydev/_pydevd_bundle/pydevd_xml.py:226-230 | one isRetVal record per returned value, in dict order and with its name; without full evaluation none raises |
| FrameXml.RetValFailureSpreads | python/helpers/pydev/_pydevd_bundle/pydevd_xml.py:226-230 | a value that raises makes the whole return-values text raise |
| FrameXml.EntryRecords | python/helpers/pydev/_pydevd_bundle/pydevd_xml.py:246-256 | an ordinary binding gives one record named after the key, tagged when hidden, with the placeholder value when not fully evaluated; the return-values entry gives one isRetVal record per item |
| FrameXml.AsyncDefersNonScalars | python/helpers/pydev/_pydevd_bundle/pydevd_xml.py:218-223 | with async loading, a value of a non-builtins type or a list, tuple or dict gets the placeholder value |
| FrameXml.AsyncEvaluatesBuiltinScalars | python/helpers/pydev/_pydevd_bundle/pydevd_xml.py:218-223 | with async loading, a built-in non-container value is written as without async loading |
| FrameXml.VarToXml | python/helpers/pydev/_pydevd_bundle/pydevd_xml.py:264-360 | the handler-based var_to_xml returns the specified XML (or raises where the specification does) and keeps the handler valid; it leaves the string-provider cache and its counter alone, and changes the resolver cache and its counter exactly as `get_type` on the value does, so cached types only accumulate |
| FrameXml.VarText | python/helpers/pydev/_pydevd_bundle/pydevd_xml.py:275-360 | once `get_type` has answered, the text and record built are the specified XML for that type information |
| FrameXml.ReturnValuesToXml | python/helpers/pydev/_pydevd_bundle/pydevd_xml.py:226-230 | the loop returns the concatenated records of the return-values dict, or raises when one raises or the value is not a dict; the string-provider cache and its counter are unchanged, no cached resolver type is dropped and the call counter never goes down |
| FrameXml.AppendRetVal | python/helpers/pydev/_pydevd_bundle/pydevd_xml.py:228-229 | one turn of that loop extends the text by the next returned value's record, or the whole call raises, with the same effect on the caches |
| FrameXml.FrameVarsToXml | python/helpers/pydev/_pydevd_bundle/pydevd_xml.py:233-261 | the loop over sorted keys returns the specified dump; the string-provider cache and its counter are unchanged, no cached resolver type is dropped and the call counter never goes down |
| FrameXml.FrameDumpReadsBack | python/helpers/pydev/_pydevd_bundle/pydevd_xml.py:233-261 | the dump parses back as the records of the sorted keys, in order |
| FrameXml.FailingKeyIsSkipped | python/helpers/pydev/_pydevd_bundle/pydevd_xml.py:245-259 | a binding whose encoding raises is left out, and the dump equals the one of the locals without it |
| KeyOrder.SortKeys | python/helpers/pydev/_pydevd_bundle/pydevd_xml.py:239-243 | returns the keys strictly increasing in Python's string order, each key once |
| KeyOrder.SortedUnique | python/helpers/pydev/_pydevd_bundle/pydevd_xml.py:239-243 | an increasing list is determined by its elements, so the sorted order does not depend on dict order |
| KeyOrder.NumeralsSortByValue | python/helpers/pydev/pydevd_plugins/extensions/types/pydevd_plugin_numpy_types.py:49 | digit strings of equal length compare as strings the way their values compare |
| TextUtil.NatToString | python/helpers/pydev/_pydevd_bundle/pydevd_xml.py:290 | `str(n)` is a non-empty digit string with no leading zero that reads back as n |
| TextUtil.PaddedNumeral | python/helpers/pydev/pydevd_plugins/extensions/types/pydevd_plugin_numpy_types.py:49 | a zero-padded numeral is all digits and reads back as its number |
| NumpyTypes.NumpyClaimsArrays | python/helpers/pydev/pydevd_plugins/extensions/types/pydevd_plugin_numpy_types.py:13-20 | registered first, the provider becomes the resolver of every ndarray subclass, whose resolver does not ask for repr |
| NumpyTypes.WithoutNumpyNothingIsClaimed | python/helpers/pydev/pydevd_plugins/extensions/types/pydevd_plugin_numpy_types.py:13-15 | when numpy cannot be imported, `can_provide` declines every type |
| NumpyTypes.NonArraysGoToTheTypeMap | python/helpers/pydev/pydevd_plugins/extensions/types/pydevd_plugin_numpy_types.py:13-15 | with numpy as the only provider, a non-array is classified as if no provider were registered |
| NumpyTypes.LabelReadsBack | python/helpers/pydev/pydevd_plugins/extensions/types/pydevd_plugin_numpy_types.py:49 | the label of row i is a non-empty digit string reading back as i |
| NumpyTypes.LabelWidth | python/helpers/pydev/pydevd_plugins/extensions/types/pydevd_plugin_numpy_types.py:49 | each row label has as many digits as `len(obj)` |
| NumpyTypes.LabelsSortInRowOrder | python/helpers/pydev/pydevd_plugins/extensions/types/pydevd_plugin_numpy_types.py:49 | row labels sort as strings in row order |
| NumpyTypes.LabelledKeys | python/helpers/pydev/pydevd_plugins/extensions/types/pydevd_plugin_numpy_types.py:50-52 | after k rows the container's attributes are exactly the labels of rows 0..k-1 |
| NumpyTypes.LabelSetSize | python/helpers/pydev/pydevd_plugins/extensions/types/pydevd_plugin_numpy_types.py:50-52 | k rows give k distinct labels |
| NumpyTypes.LabelledValues | python/helpers/pydev/pydevd_plugins/extensions/types/pydevd_plugin_numpy_types.py:50-52 | the attribute for row j's label holds row j |
| NumpyTypes.ItemsAttrsShowFirstRows | python/helpers/pydev/pydevd_plugins/extensions/types/pydevd_plugin_numpy_types.py:46-56 | the first min(n, 301) rows are stored under their labels |
| NumpyTypes.ItemsAttrsHideLaterRows | python/helpers/pydev/pydevd_plugins/extensions/types/pydevd_plugin_numpy_types.py:53-55 | rows past the 301st are not stored |
| NumpyTypes.ItemsAttrsMarkTooLarge | python/helpers/pydev/pydevd_plugins/extensions/types/pydevd_plugin_numpy_types.py:53-55 | the "too large" marker is set exactly when there are over 300 rows, and holds the message |
| NumpyTypes.ItemsAttrsCount | python/helpers/pydev/pydevd_plugins/extensions/types/pydevd_plugin_numpy_types.py:46-56 | the container has min(n, 301) row attributes plus the marker, never more than 301 rows |
| NumpyTypes.OnePastTheCapIsMarkedTooLarge | python/helpers/pydev/pydevd_plugins/extensions/types/pydevd_plugin_numpy_types.py:50-55 | with exactly 301 rows all are shown and the marker is still set |
| NumpyTypes.NdArrayItemsContainer.constructor | python/helpers/pydev/pydevd_plugins/extensions/types/pydevd_plugin_numpy_types.py:47 | a new container has no attributes |
| NumpyTypes.ResolveRows | python/helpers/pydev/pydevd_plugins/extensions/types/pydevd_plugin_numpy_types.py:46-56 | the loop builds a fresh container whose attributes are the labelled rows up to the cap plus the marker |
| NumpyTypes.ResolveGivesNone | python/helpers/pydev/pydevd_plugins/extensions/types/pydevd_plugin_numpy_types.py:27-57 | resolve gives None exactly for an unknown name not starting with `[`, and for min or max of a non-numeric array |
| NumpyTypes.ResolveBuildsRowsFor | python/helpers/pydev/pydevd_plugins/extensions/types/pydevd_plugin_numpy_types.py:46 | the rows container is built exactly for names starting with `[` |
| NumpyTypes.Resolve | python/helpers/pydev/pydevd_plugins/extensions/types/pydevd_plugin_numpy_types.py:27-57 | resolve returns the child, None, the raise or a fresh rows container that the outcome of the name says |
| NumpyTypes.GetDictionary | python/helpers/pydev/pydevd_plugins/extensions/types/pydevd_plugin_numpy_types.py:59-76 | builds the specified summary, raising when the array has no dtype |
| NumpyTypes.DictionaryKeys | python/helpers/pydev/pydevd_plugins/extensions/types/pydevd_plugin_numpy_types.py:59-76 | the summary has exactly the keys `__internals__`, min, max, shape, dtype, size and `[0:n] `, and the slice holds the first min(n, 300) rows |
| NumpyTypes.DictionaryMinMax | python/helpers/pydev/pydevd_plugins/extensions/types/pydevd_plugin_numpy_types.py:62-71 | min and max are the "too big" messages above 1024*1024 elements, else the array's min and max when numeric (dtype kind in `biufc`), else 'not a numeric object' |
| NumpyTypes.DictionaryAgreesWithResolve | python/helpers/pydev/pydevd_plugins/extensions/types/pydevd_plugin_numpy_types.py:27-76 | each summary child is what resolve gives for its key (min and max while computed), and the slice key opens the rows container |
| NumpyTypes.SliceRowsAreLabelledRows | python/helpers/pydev/pydevd_plugins/extensions/types/pydevd_plugin_numpy_types.py:75 | row j of the slice is the row the container stores under label j |

## Left out

- Jython: the `_IS_JYTHON` type map and `_get_type` override (pydevd_xml.py:94-111, 171-181) are not modelled, only the CPython path.
- The Django entries of the type map, and the Python 2 `long`/`unicode` entries, are not modelled: the optional imports are taken to fail, as on Python 3 without Django.
- The `bytes`/`unicode` re-encoding of lines 337-346 is not modelled: values are text.
- Logging and traceback printing in the `except` branches are left out: they do not change results.
- Concurrency: the handler's caches are shared module state in the source, and the model treats calls as sequential.
- `isinstance` in the type map and in `should_evaluate_full_value` is judged on `o.__class__`, like the cache key, not on `type(o)`.
- Extension discovery (`extensions_of_type`) and numpy's `find_mod_attr` are parameters: the provider lists and the `ndarray` type object.
- `pydevd_resolver` (the resolvers themselves, `defaultResolver.get_dictionary`, `frameResolver.get_frame_name`) is not part of this model: their results are opaque values given with the object.
- numpy arithmetic (`min`, `max`, `shape`, `size`, slicing) is opaque: the array carries them as values. `min` of an empty array raising and 0-d arrays are not modelled.
- `str`, `repr` and `len` of a value are given with the object, with None for "raises".
- Frame locals and return values are keyed by strings, as CPython frames always are: the `str(k)` conversion of a non-string key (pydevd_xml.py:254, 256), and a non-string return-value name (pydevd_xml.py:229), cannot be represented.
- TypeResolve.TypeResolveHandler.StrFromProviders: the sentinel test is by identity (`is`) in the source and by constructor in the model.
- XmlEscape.Quote: only the Python 3 `quote` of `str` is modelled; surrogate code points and the Python 2 byte behaviour are not.
- TextUtil.PadLeft: states only the padded length; its value is described through `PaddedNumeral` and `LabelReadsBack`.
