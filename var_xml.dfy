/** `var_to_xml` (pydevd_xml.py:264-360) as a function from a value and the
    answers the runtime gives about it to one `<var .../>` record, together
    with the reader a front end applies to such records.

    The string-presentation lookup at line 281 is an input here. As the
    file is written, `TypeResolveHandler.instance()` names a method the
    class does not define, so the lookup always raises and the handler at
    313-317 shows `repr(v)`: that is the `LookupRaised` case, the one the
    frame dump in FrameXml uses. The chain at 282-312 is what the other
    cases model. */
module VarXml {
  import opened TextUtil
  import opened PyObjects
  import opened Constants
  import opened XmlEscape
  import opened TypeResolve

  /** The `val` argument: a plain object, or an `ExceptionOnEvaluate`
      wrapping the exception object an evaluation produced. */
  datatype PyValue = Plain(obj: PyObject) | ExceptionOnEvaluate(result: PyObject)

  /** The object var_to_xml describes (pydevd_xml.py:267-272). */
  function Unwrapped(val: PyValue): PyObject {
    match val
    case Plain(o) => o
    case ExceptionOnEvaluate(r) => r
  }

  // ---------------------------------------------------------------------
  // The display text

  /** `r` is a short name for the class text `c`: it holds no dot, ends
      `c` or the part of `c` before a closing "'>", is all of a text with no
      dot and no quote, and follows the last dot of a dotted text. */
  ghost predicate IsShortNameOf(c: string, r: string) {
    && '.' !in r
    && (EndsWith(c, r) || EndsWith(c, r + "'>"))
    && ('.' !in c && '\'' !in c ==> r == c)
    && ('.' in c && EndsWith(c, "'>") ==> EndsWith(c, "." + r + "'>"))
    && ('.' in c && !EndsWith(c, "'>") ==> EndsWith(c, "." + r))
  }

  /** The class name shown before a value (pydevd_xml.py:294-305): after the
      last '.', else after the first single quote, then without a trailing
      "'>". */
  function ShortClassName(c: string): (r: string)
    ensures IsShortNameOf(c, r)
  {
    if '.' in c then
      DottedShortName(c);
      WithoutQuoteClose(c[LastIndex(c, '.') + 1..])
    else if '\'' in c then
      QuotedShortName(c);
      WithoutQuoteClose(c[FirstIndex(c, '\'') + 1..])
    else
      PlainShortName(c);
      WithoutQuoteClose(c)
  }

  /** A text without the "'>" that closes a class text, when it has one. */
  function WithoutQuoteClose(s: string): (r: string)
    ensures EndsWith(s, "'>") ==> r + "'>" == s
    ensures !EndsWith(s, "'>") ==> r == s
  {
    if EndsWith(s, "'>") then s[..|s| - 2] else s
  }

  lemma DottedShortName(c: string)
    requires '.' in c
    ensures IsShortNameOf(c, WithoutQuoteClose(c[LastIndex(c, '.') + 1..]))
  {
    if EndsWith(c, "'>") {
      DottedClosedShortName(c);
    } else {
      DottedOpenShortName(c);
    }
  }

  lemma DottedClosedShortName(c: string)
    requires '.' in c && EndsWith(c, "'>")
    ensures var r := WithoutQuoteClose(c[LastIndex(c, '.') + 1..]);
      '.' !in r && EndsWith(c, "." + r + "'>") && EndsWith(c, r + "'>")
  {
    var k := LastIndex(c, '.');
    var cut := c[k + 1..];
    assert c[|c| - 2] == '\'' && c[|c| - 1] == '>';
    assert cut[|cut| - 2..] == c[|c| - 2..];
    var r := WithoutQuoteClose(cut);
    assert c[k..] == "." + r + "'>";
  }

  lemma DottedOpenShortName(c: string)
    requires '.' in c && !EndsWith(c, "'>")
    ensures var r := WithoutQuoteClose(c[LastIndex(c, '.') + 1..]);
      '.' !in r && EndsWith(c, "." + r) && EndsWith(c, r)
  {
    var k := LastIndex(c, '.');
    var cut := c[k + 1..];
    if |cut| >= 2 {
      assert cut[|cut| - 2..] == c[|c| - 2..];
    }
    assert c[k..] == "." + cut;
  }

  lemma QuotedShortName(c: string)
    requires '.' !in c && '\'' in c
    ensures IsShortNameOf(c, WithoutQuoteClose(c[FirstIndex(c, '\'') + 1..]))
  {
    var cut := c[FirstIndex(c, '\'') + 1..];
    assert EndsWith(c, cut);
  }

  lemma PlainShortName(c: string)
    requires '.' !in c && '\'' !in c
    ensures IsShortNameOf(c, WithoutQuoteClose(c))
  {
  }

  /** A dotted class text such as "<class 'a.B'>" shows as the part after
      its last dot ("B"). */
  lemma ShortClassNameOfDotted(p: string, n: string)
    requires '.' !in n && '\'' !in n
    ensures ShortClassName(p + "." + n + "'>") == n
  {
    var c := p + "." + n + "'>";
    assert c[|p|] == '.';
    assert c[|p| + 1..] == n + "'>";
    LastIndexIs(c, '.', |p|);
    var cut := c[|p| + 1..];
    assert cut[..|cut| - 2] == n;
  }

  /** An undotted class text such as "<type 'int'>" shows as the part
      between its quotes ("int"). */
  lemma ShortClassNameOfQuoted(p: string, n: string)
    requires '.' !in p && '\'' !in p && '.' !in n && '\'' !in n
    ensures ShortClassName(p + "'" + n + "'>") == n
  {
    var c := p + "'" + n + "'>";
    assert c[|p|] == '\'' && c[..|p|] == p;
    FirstIndexIs(c, '\'', |p|);
    assert '.' !in c;
    var cut := c[|p| + 1..];
    assert cut == n + "'>";
    assert cut[..|cut| - 2] == n;
  }

  /** The handler at pydevd_xml.py:313-317: `repr(v)`, else a text naming
      the class; None when even `v.__class__` cannot be read. */
  function ReprFallback(rt: Runtime, v: PyObject): (r: Option<string>)
    ensures r.None? <==> v.repr.None? && v.classAttr.None?
    ensures v.repr.Some? ==> r == v.repr
    ensures v.repr.None? && v.classAttr.Some? ==> r == Some("Unable to get repr for " + rt.classText(v.classAttr.value))
  {
    match v.repr
    case Some(s) => Some(s)
    case None =>
      match v.classAttr
      case Some(c) => Some("Unable to get repr for " + rt.classText(c))
      case None => None
  }

  /** The text shown for an exact list, tuple or dict longer than 300. */
  function TooBigText(n: nat): string {
    "<Too big to print. Len: " + NatToString(n) + ">"
  }

  /** The chain at pydevd_xml.py:284-312, applied when no string provider
      answered; None when a `str`/`repr` in it raises (which sends the
      value to ReprFallback). */
  function ClassChain(reg: Registry, v: PyObject, resolver: Option<Resolver>): Option<string> {
    match v.classAttr
    case None => v.str
    case Some(c) =>
      if c == Frame then Some(v.frameName)
      else if c in {List, Tuple, Dict} then
        if v.length > TooBigToPrint then Some(reg.rt.classText(c) + ": " + TooBigText(v.length))
        else (match v.str
              case Some(s) => Some(reg.rt.classText(c) + ": " + s)
              case None => None)
      else
        var cName := ShortClassName(reg.rt.classText(c));
        var shown := if resolver.Some? && UsesValueRepr(reg, resolver.value) then v.repr else v.str;
        match shown
        case Some(s) => Some(cName + ": " + s)
        case None => None
  }

  /** The display text of a fully evaluated value, given what the
      string-presentation lookup did (pydevd_xml.py:280-317); None when
      var_to_xml raises. A cached provider comes back as the provider object
      itself, on which `len` raises at line 331. */
  function Display(reg: Registry, v: PyObject, resolver: Option<Resolver>, lookup: StrLookup): Option<string> {
    match lookup
    case LookupRaised => ReprFallback(reg.rt, v)
    case ProviderObject(_) => None
    case StrText(s) => Some(s)
    case NoStr =>
      match ClassChain(reg, v, resolver)
      case Some(s) => Some(s)
      case None => ReprFallback(reg.rt, v)
  }

  /** The text before trimming: the async placeholder when the value is not
      to be evaluated (pydevd_xml.py:277-278). */
  function ValueText(reg: Registry, v: PyObject, resolver: Option<Resolver>, lookup: StrLookup,
                     evaluateFullValue: bool): Option<string>
  {
    if !evaluateFullValue then Some(DefaultValue) else Display(reg, v, resolver, lookup)
  }

  /** Trimming to MAXIMUM_VARIABLE_REPRESENTATION_SIZE (pydevd_xml.py:331-335). */
  function Trim(s: string, doTrim: bool): (r: string)
    ensures doTrim && |s| > MaxReprSize ==> |r| == MaxReprSize + 3 && r == s[..MaxReprSize] + "..."
    ensures !(doTrim && |s| > MaxReprSize) ==> r == s
    ensures doTrim ==> |r| <= MaxReprSize + 3
    ensures r == [] <==> s == []
  {
    if |s| > MaxReprSize && doTrim then s[..MaxReprSize] + "..." else s
  }

  // ---------------------------------------------------------------------
  // The record

  /** The flag attribute (pydevd_xml.py:352-358). */
  datatype Flag = ErrorOnEval | Container | NoFlag

  function FlagOf(val: PyValue, resolver: Option<Resolver>): (f: Flag)
    ensures f == ErrorOnEval <==> val.ExceptionOnEvaluate?
    ensures f == Container <==> !val.ExceptionOnEvaluate? && resolver.Some?
  {
    if val.ExceptionOnEvaluate? then ErrorOnEval
    else if resolver.Some? then Container
    else NoFlag
  }

  /** `getattr(_type, "__module__", "")`; the text 'Unable to get Type' has
      no such attribute. */
  function QualifierOf(rt: Runtime, ref: TypeRef): string {
    match ref
    case Known(t) => rt.moduleOf(t)
    case NameUnavailable => ""
  }

  /** What one record says, before encoding: the variable name, the type
      name, the module, the trimmed display text, the flag and the extra
      attributes. Empty qualifier and value texts are not written. */
  datatype VarRecord = VarRecord(
    name: string,
    typeName: string,
    qualifier: string,
    value: string,
    flag: Flag,
    extra: string)

  /** What var_to_xml(val, name, doTrim, additionalInXml, evaluate_full_value)
      describes, or None when it raises. */
  function VarRecordOf(reg: Registry, val: PyValue, lookup: StrLookup, name: string,
                       doTrim: bool, extra: string, evaluateFullValue: bool): (r: Option<VarRecord>)
    ensures r.Some? ==>
      && r.value.name == name
      && r.value.extra == extra
      && r.value.typeName == TypeInfoOf(reg, Unwrapped(val)).typeName
      && r.value.qualifier == QualifierOf(reg.rt, TypeInfoOf(reg, Unwrapped(val)).typeObject)
      && r.value.flag == FlagOf(val, TypeInfoOf(reg, Unwrapped(val)).resolver)
      && (doTrim ==> |r.value.value| <= MaxReprSize + 3)
    ensures !evaluateFullValue ==> r.Some? && r.value.value == DefaultValue
  {
    var v := Unwrapped(val);
    var info := TypeInfoOf(reg, v);
    match ValueText(reg, v, info.resolver, lookup, evaluateFullValue)
    case None => None
    case Some(text) =>
      Some(VarRecord(name, info.typeName, QualifierOf(reg.rt, info.typeObject),
                     Trim(text, doTrim), FlagOf(val, info.resolver), extra))
  }

  // ---------------------------------------------------------------------
  // Encoding (pydevd_xml.py:319-360)

  const NameOpen: string := "<var name=\""
  const TypeOpen: string := " type=\""
  const QualifierOpen: string := "qualifier=\""
  const ValueOpen: string := " value=\""
  const ErrorOnEvalAttr: string := " isErrorOnEval=\"True\""
  const ContainerAttr: string := " isContainer=\"True\""
  const RetValAttr: string := " isRetVal=\"True\""
  const HiddenAttr: string := " isIPythonHidden=\"True\""
  const Close: string := " />\n"

  /** The `additionalInXml` texts the frame dump passes. */
  predicate KnownExtra(extra: string) {
    extra == [] || extra == RetValAttr || extra == HiddenAttr
  }

  function FlagText(f: Flag): string {
    match f
    case ErrorOnEval => ErrorOnEvalAttr
    case Container => ContainerAttr
    case NoFlag => []
  }

  function QualifierOnto(q: string, rest: string): string {
    if q == [] then rest else QualifierOpen + (MakeValidXmlValue(q) + ("\"" + rest))
  }

  function ValueOnto(v: string, rest: string): string {
    if v == [] then rest else ValueOpen + (MakeValidXmlValue(Quote(v)) + ("\"" + rest))
  }

  /** The record followed by `rest`: name (quoted, then escaped), type,
      qualifier, value (quoted, then escaped), flag, extra, in that order. */
  function RenderOnto(r: VarRecord, rest: string): string {
    NameOpen + (MakeValidXmlValue(Quote(r.name)) + ("\"" + (TypeOpen + (MakeValidXmlValue(r.typeName) + ("\"" +
      (" " + QualifierOnto(r.qualifier, ValueOnto(r.value, FlagText(r.flag) + (r.extra + (Close + rest))))))))))
  }

  function Render(r: VarRecord): string {
    RenderOnto(r, [])
  }

  /** The text var_to_xml returns, or None when it raises. */
  function VarXmlOf(reg: Registry, val: PyValue, lookup: StrLookup, name: string,
                    doTrim: bool, extra: string, evaluateFullValue: bool): Option<string>
  {
    match VarRecordOf(reg, val, lookup, name, doTrim, extra, evaluateFullValue)
    case None => None
    case Some(r) => Some(Render(r))
  }

  // ---------------------------------------------------------------------
  // Reading records back

  /** An attribute text up to its closing double quote, and what follows. */
  function Field(s: string): (r: Option<(string, string)>)
    ensures r.Some? ==> |r.value.1| < |s|
  {
    var k := FirstIndex(s, '"');
    if k == |s| then None else Some((s[..k], s[k + 1..]))
  }

  function ParseQualifier(s: string): (r: Option<(string, string)>)
    ensures r.Some? ==> |r.value.1| <= |s|
  {
    if StartsWith(s, QualifierOpen) then
      match Field(s[|QualifierOpen|..])
      case None => None
      case Some((e, rest)) => Some((UnescapeXml(e), rest))
    else Some(([], s))
  }

  function ParseValue(s: string): (r: Option<(string, string)>)
    ensures r.Some? ==> |r.value.1| <= |s|
  {
    if StartsWith(s, ValueOpen) then
      match Field(s[|ValueOpen|..])
      case None => None
      case Some((e, rest)) => Some((Unquote(UnescapeXml(e)), rest))
    else Some(([], s))
  }

  function ParseFlag(s: string): (r: (Flag, string))
    ensures |r.1| <= |s|
  {
    if StartsWith(s, ErrorOnEvalAttr) then (ErrorOnEval, s[|ErrorOnEvalAttr|..])
    else if StartsWith(s, ContainerAttr) then (Container, s[|ContainerAttr|..])
    else (NoFlag, s)
  }

  function ParseClose(s: string): (r: Option<string>)
    ensures r.Some? ==> |r.value| < |s|
  {
    if StartsWith(s, Close) then Some(s[|Close|..]) else None
  }

  function ParseExtra(s: string): (r: Option<(string, string)>)
    ensures r.Some? ==> |r.value.1| < |s|
  {
    if StartsWith(s, RetValAttr) then
      match ParseClose(s[|RetValAttr|..])
      case None => None
      case Some(rest) => Some((RetValAttr, rest))
    else if StartsWith(s, HiddenAttr) then
      match ParseClose(s[|HiddenAttr|..])
      case None => None
      case Some(rest) => Some((HiddenAttr, rest))
    else
      match ParseClose(s)
      case None => None
      case Some(rest) => Some(([], rest))
  }

  /** Reads one record from the head of `s`, returning it with the text
      after it. */
  function ParseVar(s: string): (r: Option<(VarRecord, string)>)
    ensures r.Some? ==> |r.value.1| < |s|
  {
    if !StartsWith(s, NameOpen) then None
    else match Field(s[|NameOpen|..])
    case None => None
    case Some((qname, s1)) =>
      if !StartsWith(s1, TypeOpen) then None
      else match Field(s1[|TypeOpen|..])
      case None => None
      case Some((etype, s2)) =>
        if !StartsWith(s2, " ") then None
        else match ParseQualifier(s2[1..])
        case None => None
        case Some((qualifier, s3)) =>
          match ParseValue(s3)
          case None => None
          case Some((value, s4)) =>
            var (flag, s5) := ParseFlag(s4);
            match ParseExtra(s5)
            case None => None
            case Some((extra, s6)) =>
              Some((VarRecord(Unquote(UnescapeXml(qname)), UnescapeXml(etype), qualifier, value, flag, extra), s6))
  }

  lemma Skip(lit: string, rest: string)
    ensures StartsWith(lit + rest, lit) && (lit + rest)[|lit|..] == rest
  {
    assert (lit + rest)[..|lit|] == lit;
  }

  lemma FieldOfEscaped(x: string, rest: string)
    requires '"' !in x
    ensures Field(x + ("\"" + rest)) == Some((x, rest))
  {
    var s := x + ("\"" + rest);
    assert s[..|x|] == x && s[|x|] == '"';
    assert FirstIndex(s, '"') == |x|;
    assert s[|x| + 1..] == rest;
  }

  lemma ParseCloseOnto(rest: string)
    ensures ParseClose(Close + rest) == Some(rest)
  {
    Skip(Close, rest);
  }

  lemma ParseExtraOnto(extra: string, rest: string)
    requires KnownExtra(extra)
    ensures ParseExtra(extra + (Close + rest)) == Some((extra, rest))
  {
    var s := extra + (Close + rest);
    ParseCloseOnto(rest);
    if extra == RetValAttr {
      Skip(RetValAttr, Close + rest);
    } else if extra == HiddenAttr {
      Skip(HiddenAttr, Close + rest);
      assert s[3] == 'I' != RetValAttr[3];
    } else {
      assert s == Close + rest;
      assert s[1] == '/' != RetValAttr[1];
      assert s[1] == '/' != HiddenAttr[1];
    }
  }

  lemma ParseFlagOnto(f: Flag, extra: string, rest: string)
    requires KnownExtra(extra)
    ensures ParseFlag(FlagText(f) + (extra + (Close + rest))) == (f, extra + (Close + rest))
  {
    var tail := extra + (Close + rest);
    var s := FlagText(f) + tail;
    match f
    case ErrorOnEval =>
      Skip(ErrorOnEvalAttr, tail);
    case Container =>
      Skip(ContainerAttr, tail);
      assert s[3] == 'C' != ErrorOnEvalAttr[3];
    case NoFlag =>
      assert s == tail;
      if extra == RetValAttr {
        assert s[3] == 'R';
      } else if extra == HiddenAttr {
        assert s[3] == 'I';
      } else {
        assert s[1] == '/';
      }
      if extra == RetValAttr || extra == HiddenAttr {
        DiffersAt(s, ErrorOnEvalAttr, 3);
        DiffersAt(s, ContainerAttr, 3);
      } else {
        DiffersAt(s, ErrorOnEvalAttr, 1);
        DiffersAt(s, ContainerAttr, 1);
      }
  }

  /** What follows the qualifier and value attributes starts with a blank
      that is not the start of a value attribute. */
  predicate AfterValue(s: string) {
    |s| >= 2 && s[0] == ' ' && s[1] != 'v'
  }

  lemma AfterValueOnto(f: Flag, extra: string, rest: string)
    requires KnownExtra(extra)
    ensures AfterValue(FlagText(f) + (extra + (Close + rest)))
  {
    var s := FlagText(f) + (extra + (Close + rest));
    if f != NoFlag {
      assert s[..2] == FlagText(f)[..2];
    } else if extra != [] {
      assert s[..2] == extra[..2];
    } else {
      assert s[..2] == Close[..2];
    }
  }

  lemma ParseValueOnto(v: string, rest: string)
    requires AfterValue(rest)
    ensures ParseValue(ValueOnto(v, rest)) == Some((v, rest))
  {
    if v == [] {
      DiffersAt(rest, ValueOpen, 1);
    } else {
      var e := MakeValidXmlValue(Quote(v));
      Skip(ValueOpen, e + ("\"" + rest));
      FieldOfEscaped(e, rest);
      EscapeRoundTrip(Quote(v));
      QuoteRoundTrip(v);
    }
  }

  lemma ParseQualifierOnto(q: string, rest: string)
    requires |rest| > 0 && rest[0] == ' '
    ensures ParseQualifier(QualifierOnto(q, rest)) == Some((q, rest))
  {
    if q == [] {
      DiffersAt(rest, QualifierOpen, 0);
    } else {
      var e := MakeValidXmlValue(q);
      Skip(QualifierOpen, e + ("\"" + rest));
      FieldOfEscaped(e, rest);
      EscapeRoundTrip(q);
    }
  }

  /** A record with one of the frame dump's extras reads back as itself,
      and the reader stops right after it. */
  lemma ParseRenderOnto(r: VarRecord, rest: string)
    requires KnownExtra(r.extra)
    ensures ParseVar(RenderOnto(r, rest)) == Some((r, rest))
  {
    var tail := FlagText(r.flag) + (r.extra + (Close + rest));
    AfterValueOnto(r.flag, r.extra, rest);
    ParseValueOnto(r.value, tail);
    var afterQ := ValueOnto(r.value, tail);
    assert afterQ[0] == ' ' by {
      if r.value != [] { assert afterQ[0] == ValueOpen[0]; }
    }
    ParseQualifierOnto(r.qualifier, afterQ);
    ParseFlagOnto(r.flag, r.extra, rest);
    ParseExtraOnto(r.extra, rest);
    var s2 := " " + QualifierOnto(r.qualifier, afterQ);
    Skip(" ", QualifierOnto(r.qualifier, afterQ));
    var et := MakeValidXmlValue(r.typeName);
    var s1 := TypeOpen + (et + ("\"" + s2));
    Skip(TypeOpen, et + ("\"" + s2));
    FieldOfEscaped(et, s2);
    EscapeRoundTrip(r.typeName);
    var en := MakeValidXmlValue(Quote(r.name));
    Skip(NameOpen, en + ("\"" + s1));
    FieldOfEscaped(en, s1);
    EscapeRoundTrip(Quote(r.name));
    QuoteRoundTrip(r.name);
  }

  lemma Regroup(a: string, x: string, rest: string)
    ensures a + (x + rest) == (a + x) + rest
  {
  }

  lemma QualifierOntoAppends(q: string, x: string, rest: string)
    ensures QualifierOnto(q, x + rest) == QualifierOnto(q, x) + rest
  {
    if q != [] {
      var e := MakeValidXmlValue(q);
      Regroup("\"", x, rest);
      Regroup(e, "\"" + x, rest);
      Regroup(QualifierOpen, e + ("\"" + x), rest);
    }
  }

  lemma ValueOntoAppends(v: string, x: string, rest: string)
    ensures ValueOnto(v, x + rest) == ValueOnto(v, x) + rest
  {
    if v != [] {
      var e := MakeValidXmlValue(Quote(v));
      Regroup("\"", x, rest);
      Regroup(e, "\"" + x, rest);
      Regroup(ValueOpen, e + ("\"" + x), rest);
    }
  }

  /** Rendering onto a text is rendering, then appending the text. */
  lemma RenderOntoAppends(r: VarRecord, rest: string)
    ensures RenderOnto(r, rest) == Render(r) + rest
  {
    assert Close + rest == Close + [] + rest;
    Regroup(r.extra, Close, rest);
    var t1 := r.extra + Close;
    Regroup(FlagText(r.flag), t1, rest);
    var t2 := FlagText(r.flag) + t1;
    ValueOntoAppends(r.value, t2, rest);
    var t3 := ValueOnto(r.value, t2);
    QualifierOntoAppends(r.qualifier, t3, rest);
    var t4 := QualifierOnto(r.qualifier, t3);
    Regroup(" ", t4, rest);
    var t5 := " " + t4;
    Regroup("\"", t5, rest);
    var t6 := "\"" + t5;
    var et := MakeValidXmlValue(r.typeName);
    Regroup(et, t6, rest);
    var t7 := et + t6;
    Regroup(TypeOpen, t7, rest);
    var t8 := TypeOpen + t7;
    Regroup("\"", t8, rest);
    var t9 := "\"" + t8;
    var en := MakeValidXmlValue(Quote(r.name));
    Regroup(en, t9, rest);
    var t10 := en + t9;
    Regroup(NameOpen, t10, rest);
    assert Render(r) == NameOpen + t10 by {
      assert Close + [] == Close;
    }
  }

  // ---------------------------------------------------------------------
  // Several records

  /** Texts written one after the other. */
  function Joined(texts: seq<string>): string {
    if texts == [] then [] else Joined(texts[..|texts| - 1]) + texts[|texts| - 1]
  }

  lemma {:induction false} JoinedAppend(a: seq<string>, b: seq<string>)
    ensures Joined(a + b) == Joined(a) + Joined(b)
  {
    if b == [] {
      assert a + b == a;
    } else {
      var ab := a + b;
      var front := b[..|b| - 1];
      assert ab[..|ab| - 1] == a + front && ab[|ab| - 1] == b[|b| - 1];
      JoinedAppend(a, front);
      Regroup(Joined(a), Joined(front), b[|b| - 1]);
    }
  }

  function Texts(recs: seq<VarRecord>): (ts: seq<string>)
    ensures |ts| == |recs| && forall i :: 0 <= i < |recs| ==> ts[i] == Render(recs[i])
  {
    seq(|recs|, i requires 0 <= i < |recs| => Render(recs[i]))
  }

  /** Records written one after the other. */
  function RenderAll(recs: seq<VarRecord>): string {
    Joined(Texts(recs))
  }

  lemma TextsAppend(a: seq<VarRecord>, b: seq<VarRecord>)
    ensures Texts(a + b) == Texts(a) + Texts(b)
  {
    var l, r := Texts(a + b), Texts(a) + Texts(b);
    forall i | 0 <= i < |l|
      ensures l[i] == r[i]
    {
      if i < |a| {
        assert (a + b)[i] == a[i];
      } else {
        assert (a + b)[i] == b[i - |a|];
      }
    }
  }

  lemma RenderAllAppend(a: seq<VarRecord>, b: seq<VarRecord>)
    ensures RenderAll(a + b) == RenderAll(a) + RenderAll(b)
  {
    TextsAppend(a, b);
    JoinedAppend(Texts(a), Texts(b));
  }

  lemma RenderAllSingle(r: VarRecord)
    ensures RenderAll([r]) == Render(r)
  {
    var ts := Texts([r]);
    assert ts == [Render(r)];
    assert ts[..0] == [] && ts[0] == Render(r);
    assert Joined(ts) == Joined([]) + Render(r);
  }

  /** Reads records until the text is used up. */
  function ParseVars(s: string): Option<seq<VarRecord>>
    decreases |s|
  {
    if s == [] then Some([])
    else match ParseVar(s)
      case None => None
      case Some((r, rest)) =>
        match ParseVars(rest)
        case None => None
        case Some(rs) => Some([r] + rs)
  }

  /** Records with the frame dump's extras, written one after the other,
      read back as the same records in the same order. */
  lemma {:induction false} ParseRenderAll(recs: seq<VarRecord>)
    requires forall i :: 0 <= i < |recs| ==> KnownExtra(recs[i].extra)
    ensures ParseVars(RenderAll(recs)) == Some(recs)
  {
    if recs != [] {
      var tail := recs[1..];
      RenderAllCons(recs);
      ParseRenderOnto(recs[0], RenderAll(tail));
      ParseRenderAll(tail);
      ParseVarsStep(RenderAll(recs), recs[0], RenderAll(tail));
      HeadTail(recs);
    }
  }

  /** The first record written, then the others. */
  lemma RenderAllCons(recs: seq<VarRecord>)
    requires recs != []
    ensures RenderAll(recs) == RenderOnto(recs[0], RenderAll(recs[1..]))
  {
    var tail := recs[1..];
    HeadTail(recs);
    RenderAllAppend([recs[0]], tail);
    RenderAllSingle(recs[0]);
    RenderOntoAppends(recs[0], RenderAll(tail));
  }

  /** Reading a list whose first record is known. */
  lemma ParseVarsStep(s: string, r: VarRecord, rest: string)
    requires ParseVar(s) == Some((r, rest))
    ensures ParseVars(rest).Some? ==> ParseVars(s) == Some([r] + ParseVars(rest).value)
  {
  }

  // ---------------------------------------------------------------------
  // What the record says

  /** As written (the lookup raises), a fully evaluated value is shown by its
      repr, or by the 'Unable to get repr' text. */
  lemma AsWrittenValueIsRepr(reg: Registry, val: PyValue, name: string, doTrim: bool, extra: string)
    requires Unwrapped(val).repr.Some?
    ensures VarRecordOf(reg, val, LookupRaised, name, doTrim, extra, true).Some?
    ensures VarRecordOf(reg, val, LookupRaised, name, doTrim, extra, true).value.value
            == Trim(Unwrapped(val).repr.value, doTrim)
  {
  }

  /** As written, a value whose repr raises and whose `__class__` cannot be
      read makes var_to_xml raise. */
  lemma AsWrittenUnreadableRaises(reg: Registry, val: PyValue, name: string, doTrim: bool, extra: string)
    requires Unwrapped(val).repr.None? && Unwrapped(val).classAttr.None?
    ensures VarRecordOf(reg, val, LookupRaised, name, doTrim, extra, true).None?
  {
  }

  /** An exact list, tuple or dict with more than 300 elements is shown by
      its class and length, never by its contents (even when `str` raises). */
  lemma TooBigShowsLength(reg: Registry, v: PyObject, resolver: Option<Resolver>, c: PyType)
    requires v.classAttr == Some(c) && c in {List, Tuple, Dict} && v.length > TooBigToPrint
    ensures Display(reg, v, resolver, NoStr) == Some(reg.rt.classText(c) + ": " + TooBigText(v.length))
    ensures ParseDecimal(NatToString(v.length)) == v.length
  {
  }

  /** A subclass of list, tuple or dict is not caught by the length rule:
      whatever the resolver and the string lookup, its text does not depend
      on its length, and with no provider string it is shown like any other
      class, by `str` or by `repr` as its resolver asks. */
  lemma SubclassOfListIsShownInFull(reg: Registry, v: PyObject, c: PyType, resolver: Option<Resolver>,
                                    lookup: StrLookup, n: nat)
    requires v.classAttr == Some(c) && c !in {List, Tuple, Dict}
    ensures Display(reg, v.(length := n), resolver, lookup) == Display(reg, v, resolver, lookup)
    ensures var shown := if resolver.Some? && UsesValueRepr(reg, resolver.value) then v.repr else v.str;
      c != Frame && lookup == NoStr && shown.Some? ==>
        Display(reg, v, resolver, lookup) == Some(ShortClassName(reg.rt.classText(c)) + ": " + shown.value)
  {
  }

  /** `%r` replaces `%s` exactly when the resolver asks for it. */
  lemma ReprOnlyWhenResolverAsks(reg: Registry, v: PyObject, resolver: Option<Resolver>, c: PyType)
    requires v.classAttr == Some(c) && c !in {List, Tuple, Dict, Frame}
    requires v.str.Some? && v.repr.Some?
    ensures Display(reg, v, resolver, NoStr) == Some(ShortClassName(reg.rt.classText(c)) + ": " +
      (if resolver.Some? && UsesValueRepr(reg, resolver.value) then v.repr.value else v.str.value))
  {
  }

  /** A record produced by var_to_xml with one of the frame dump's extras
      reads back as the name, type, module, trimmed text and flag it was
      made from. */
  lemma VarXmlReadsBack(reg: Registry, val: PyValue, lookup: StrLookup, name: string,
                        doTrim: bool, extra: string, evaluateFullValue: bool)
    requires KnownExtra(extra)
    requires VarXmlOf(reg, val, lookup, name, doTrim, extra, evaluateFullValue).Some?
    ensures var info := TypeInfoOf(reg, Unwrapped(val));
      ParseVar(VarXmlOf(reg, val, lookup, name, doTrim, extra, evaluateFullValue).value)
      == Some((VarRecord(name, info.typeName, QualifierOf(reg.rt, info.typeObject),
                         VarRecordOf(reg, val, lookup, name, doTrim, extra, evaluateFullValue).value.value,
                         FlagOf(val, info.resolver), extra), []))
  {
    var r := VarRecordOf(reg, val, lookup, name, doTrim, extra, evaluateFullValue).value;
    var info := TypeInfoOf(reg, Unwrapped(val));
    assert r == VarRecord(name, info.typeName, QualifierOf(reg.rt, info.typeObject), r.value,
                          FlagOf(val, info.resolver), extra);
    assert VarXmlOf(reg, val, lookup, name, doTrim, extra, evaluateFullValue).value == Render(r);
    ParseRender(r);
  }

  /** One record, alone, reads back. */
  lemma ParseRender(r: VarRecord)
    requires KnownExtra(r.extra)
    ensures ParseVar(Render(r)) == Some((r, []))
  {
    ParseRenderOnto(r, []);
  }
}
