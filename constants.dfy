/** Protocol constants the pipeline imports from pydevd_constants.py and
    pydevd_resolver.py (neither file is part of this model; the values are
    those two modules' definitions for Python 3). */
module Constants {

  /** MAXIMUM_VARIABLE_REPRESENTATION_SIZE: display texts longer than this are cut. */
  const MaxReprSize: nat := 1000

  /** DEFAULT_VALUE: the placeholder shown for values loaded asynchronously. */
  const DefaultValue: string := "__pydevd_value_async"

  /** RETURN_VALUES_DICT: the reserved local holding the return values of a step. */
  const ReturnValuesDict: string := "__pydevd_ret_val_dict"

  /** BUILTINS_MODULE_NAME: the `__module__` of built-in types. */
  const BuiltinsModuleName: string := "builtins"

  /** MAX_ITEMS_TO_HANDLE: how many children a resolver enumerates. */
  const MaxItemsToHandle: nat := 300

  /** TOO_LARGE_ATTR and TOO_LARGE_MSG: the child added when there are more. */
  const TooLargeAttr: string := "Unable to handle:"
  const TooLargeMsg: string := "Too large to show contents. Max items to show: 300"

  /** The element count above which var_to_xml prints a placeholder for an
      exact list, tuple or dict (a literal in var_to_xml itself). */
  const TooBigToPrint: nat := 300
}
