/** The debugged Python process as the value-to-XML pipeline sees it: type
    objects, objects, and the runtime's answers about types (`isinstance`,
    `__name__`, `__module__`, `str(cls)`). Everything the pipeline only asks
    the runtime about is an uninterpreted field or function here. */
module PyObjects {

  datatype Option<+T> = None | Some(value: T)

  /** Type objects. The built-in types the default type map and var_to_xml
      name are constructors of their own; every other class is an opaque id. */
  datatype PyType =
    | NoneType | Int | Float | Complex | Str | Tuple | List | Dict
    | Set | FrozenSet | Deque | Frame
    | Class(id: nat)

  /** A Python object. Each field is the answer to one question the pipeline
      asks about it; `None` means that asking raises.
      - runtimeType: `type(o)`
      - classAttr: `o.__class__` (None when the attribute cannot be read)
      - str, repr: `'%s' % o` and `repr(o)`
      - length: `len(o)`, only consulted for exact list, tuple and dict objects
      - frameName: `frameResolver.get_frame_name(o)`, only consulted for frames
      - items: the (key, value) pairs `dict_iter_items(o)` yields, in order
        (None when `o` cannot be iterated as a dict) */
  datatype PyObject = PyObject(
    runtimeType: PyType,
    classAttr: Option<PyType>,
    str: Option<string>,
    repr: Option<string>,
    length: nat,
    frameName: string,
    items: Option<seq<(string, PyObject)>>)

  /** What the runtime answers about type objects.
      - isSubclass(t, u): an instance of class `t` passes `isinstance(o, u)`
      - typeName(t): `t.__name__` (None when reading it raises)
      - moduleOf(t): `getattr(t, '__module__', '')`, "" standing also for None
      - classText(t): `str(t)`, e.g. "<class 'a.B'>" */
  datatype Runtime = Runtime(
    isSubclass: (PyType, PyType) -> bool,
    typeName: PyType -> Option<string>,
    moduleOf: PyType -> string,
    classText: PyType -> string)

  /** The type object `get_type` keys on: `o.__class__`, or `type(o)` when
      that attribute cannot be read. */
  function TypeObjectOf(o: PyObject): PyType {
    match o.classAttr
    case Some(c) => c
    case None => o.runtimeType
  }
}
