// Resolving a parsed path in a JSON tree (saga/template.go:104-146,
// saga/jsonpath.go:19-93).
module PathLookup {
  import opened Wrappers
  import opened PathSyntax

  // Numbers carry the text they are rendered as.
  datatype Json =
    | JNull | JBool(b: bool) | JNum(text: string) | JStr(s: string)
    | JArr(items: seq<Json>) | JObj(fields: map<string, Json>)

  // One part of a template path.
  function TemplateStep(current: Json, part: string): Option<Json> {
    if !current.JObj? then None
    else match ArrayIndex(part)
      case None => if part in current.fields then Some(current.fields[part]) else None
      case Some((idx, base)) =>
        if base in current.fields && current.fields[base].JArr? && 0 <= idx < |current.fields[base].items|
        then Some(current.fields[base].items[idx]) else None
  }

  // One part of a JSONPath: the same, but a number may also index an array directly.
  function JsonStep(current: Json, part: string): Option<Json> {
    if current.JArr? then
      match Atoi(part)
      case None => None
      case Some(idx) => if 0 <= idx < |current.items| then Some(current.items[idx]) else None
    else TemplateStep(current, part)
  }

  function Resolve(step: (Json, string) -> Option<Json>, current: Json, parts: seq<string>): Option<Json>
    decreases |parts|
  {
    if parts == [] then Some(current)
    else match step(current, parts[0])
      case None => None
      case Some(next) => Resolve(step, next, parts[1..])
  }

  function StripRoot(path: string): string {
    if "$." <= path then path[2..] else if "$" <= path then path[1..] else path
  }

  // What the two entry points compute before the value is turned into text.
  function TemplateValue(data: Json, path: string): Option<Json> {
    var parts := TemplateParts(path, "");
    if parts == [] then None else Resolve(TemplateStep, data, parts)
  }

  function JsonPathValue(data: Json, path: string): Option<Json> {
    var parts := JsonParts(StripRoot(path), "");
    if parts == [] then None else Resolve(JsonStep, data, parts)
  }

  // valueToString and jsonValueToString: format covers arrays and objects, which the
  // one marshals and the other prints.
  function Text(v: Json, format: Json -> Option<string>): Option<string> {
    match v
    case JStr(s) => Some(s)
    case JNum(text) => Some(text)
    case JBool(b) => Some(if b then "true" else "false")
    case JNull => Some("")
    case _ => format(v)
  }

  function TextOf(value: Option<Json>, format: Json -> Option<string>): Option<string> {
    match value
    case Some(v) => Text(v, format)
    case None => None
  }

  // The text shows the value: scalars as they are, nothing for nothing.
  ghost predicate Shows(text: Option<string>, value: Option<Json>, format: Json -> Option<string>) {
    && (value == None ==> text == None)
    && (value == Some(JBool(true)) ==> text == Some("true"))
    && (value == Some(JBool(false)) ==> text == Some("false"))
    && (value == Some(JNull) ==> text == Some(""))
    && (forall s :: value == Some(JStr(s)) ==> text == Some(s))
    && (forall n :: value == Some(JNum(n)) ==> text == Some(n))
    && (value.Some? && (value.value.JArr? || value.value.JObj?) ==> text == format(value.value))
  }

  method ResolveTemplatePath(path: string, data: Json, format: Json -> Option<string>) returns (text: Option<string>)
    ensures text == TextOf(TemplateValue(data, path), format)
    ensures forall p :: IsPath(p) && path == PrintPath(p) ==> Shows(text, Lookup(data, p, false), format)
  {
    TemplateTextShows(path, data, format);
    var parts := ParsePathParts(path);
    if |parts| == 0 {
      return None;
    }
    var current := data;
    var i := 0;
    while i < |parts|
      invariant 0 <= i <= |parts|
      invariant Resolve(TemplateStep, current, parts[i..]) == Resolve(TemplateStep, data, parts)
    {
      var part := parts[i];
      assert parts[i..][1..] == parts[i + 1..];
      if !current.JObj? {
        return None;
      }
      var indexed := ArrayIndex(part);
      if indexed.Some? {
        var (idx, base) := indexed.value;
        if base !in current.fields {
          return None;
        }
        var arr := current.fields[base];
        if !arr.JArr? || idx < 0 || idx >= |arr.items| {
          return None;
        }
        current := arr.items[idx];
      } else {
        if part !in current.fields {
          return None;
        }
        current := current.fields[part];
      }
      i := i + 1;
    }
    return Text(current, format);
  }

  method ExtractByPath(data: Json, path: string, format: Json -> Option<string>) returns (text: Option<string>)
    ensures text == TextOf(JsonPathValue(data, path), format)
    ensures forall p :: IsPath(p) && path == "$." + PrintPath(p) ==> Shows(text, Lookup(data, p, true), format)
  {
    JsonTextShows(path, data, format);
    var rest := StripRoot(path);
    if rest == "" {
      return None;
    }
    var parts := ParseJSONPathParts(rest);
    if |parts| == 0 {
      return None;
    }
    var current := data;
    var i := 0;
    while i < |parts|
      invariant 0 <= i <= |parts|
      invariant Resolve(JsonStep, current, parts[i..]) == Resolve(JsonStep, data, parts)
    {
      var part := parts[i];
      assert parts[i..][1..] == parts[i + 1..];
      var next := JsonStep(current, part);
      if next.None? {
        return None;
      }
      current := next.value;
      i := i + 1;
    }
    return Text(current, format);
  }

  // ---------- structural lookup ----------

  // arrays: whether a bare number may select an array element.
  function Child(v: Json, a: Accessor, arrays: bool): Option<Json> {
    match v
    case JObj(fields) =>
      if a.key !in fields then None
      else (match a
        case Key(k) => Some(fields[k])
        case At(k, i) => if fields[k].JArr? && i < |fields[k].items| then Some(fields[k].items[i]) else None)
    case JArr(items) =>
      if arrays && a.Key? && Atoi(a.key).Some? && 0 <= Atoi(a.key).value < |items|
      then Some(items[Atoi(a.key).value]) else None
    case _ => None
  }

  function Lookup(v: Json, path: seq<Accessor>, arrays: bool): Option<Json> {
    if path == [] then Some(v)
    else match Child(v, path[0], arrays)
      case None => None
      case Some(next) => Lookup(next, path[1..], arrays)
  }

  lemma BracketIsNoNumber(a: Accessor)
    requires Printable(a) && a.At?
    ensures Atoi(Print(a)) == None
  {
    var s := Print(a);
    assert s[|s| - 1] == ']';
    assert s[1..][|s| - 2] == ']';
  }

  lemma StepIsChild(v: Json, a: Accessor)
    requires Printable(a)
    ensures TemplateStep(v, Print(a)) == Child(v, a, false)
    ensures JsonStep(v, Print(a)) == Child(v, a, true)
  {
    IndexOfPrinted(a);
    if a.At? {
      BracketIsNoNumber(a);
    }
  }

  lemma {:induction false} ResolveIsLookup(v: Json, path: seq<Accessor>)
    requires forall i :: 0 <= i < |path| ==> Printable(path[i])
    ensures Resolve(TemplateStep, v, PrintAll(path)) == Lookup(v, path, false)
    ensures Resolve(JsonStep, v, PrintAll(path)) == Lookup(v, path, true)
  {
    if path != [] {
      StepIsChild(v, path[0]);
      assert PrintAll(path)[1..] == PrintAll(path[1..]);
      if Child(v, path[0], false).Some? {
        ResolveIsLookup(Child(v, path[0], false).value, path[1..]);
      }
      if Child(v, path[0], true).Some? {
        ResolveIsLookup(Child(v, path[0], true).value, path[1..]);
      }
    }
  }

  // Resolving a printed path is structural lookup along its accessors.
  lemma PrintedPathLookup(v: Json, path: seq<Accessor>)
    requires path != [] && forall i :: 0 <= i < |path| ==> Printable(path[i])
    ensures TemplateValue(v, PrintPath(path)) == Lookup(v, path, false)
    ensures JsonPathValue(v, "$." + PrintPath(path)) == Lookup(v, path, true)
  {
    PartsOfPrintedPath(path);
    ResolveIsLookup(v, path);
    assert ("$." + PrintPath(path))[2..] == PrintPath(path);
    assert "$." <= "$." + PrintPath(path);
  }

  // On such paths the two resolvers agree as soon as no key is a number; the only
  // difference is a number applied to an array.
  lemma {:induction false} ResolversAgree(v: Json, path: seq<Accessor>)
    requires forall i :: 0 <= i < |path| ==> Printable(path[i]) && (path[i].Key? ==> Atoi(path[i].key).None?)
    requires path != []
    ensures TemplateValue(v, PrintPath(path)) == JsonPathValue(v, "$." + PrintPath(path))
  {
    PrintedPathLookup(v, path);
    LookupIgnoresArrays(v, path);
  }

  lemma {:induction false} LookupIgnoresArrays(v: Json, path: seq<Accessor>)
    requires forall i :: 0 <= i < |path| && path[i].Key? ==> Atoi(path[i].key).None?
    ensures Lookup(v, path, false) == Lookup(v, path, true)
  {
    if path != [] {
      var next := Child(v, path[0], false);
      if next.Some? {
        LookupIgnoresArrays(next.value, path[1..]);
      }
    }
  }

  // One accessor: a key selects a field, an index an element of an array under a key;
  // where arrays may be indexed directly, a number selects an element.
  lemma ChildMeans(fields: map<string, Json>, items: seq<Json>, k: string, i: nat, arrays: bool, v: Json)
    ensures Lookup(JObj(fields), [Key(k)], arrays) == Some(v) <==> k in fields && fields[k] == v
    ensures Lookup(JObj(fields[k := JArr(items)]), [At(k, i)], arrays) == Some(v) <==> i < |items| && items[i] == v
    ensures (k in fields && fields[k].JArr?) || Lookup(JObj(fields), [At(k, i)], arrays) == None
    ensures i < 0x8000_0000_0000_0000 ==>
      (Lookup(JArr(items), [Key(Itoa(i))], arrays) == Some(v) <==> arrays && i < |items| && items[i] == v)
    ensures Atoi(k) == None ==> Lookup(JArr(items), [Key(k)], arrays) == None
    ensures Lookup(JArr(items), [At(k, i)], arrays) == None
  {
    AtoiSigned(i);
    assert forall j: Json :: Lookup(j, [], arrays) == Some(j);
    assert [Key(k)][1..] == [] && [At(k, i)][1..] == [] && [Key(Itoa(i))][1..] == [];
  }

  // A longer path is looked up piece by piece, and nothing lies below a scalar.
  lemma {:induction false} LookupChains(v: Json, p: seq<Accessor>, q: seq<Accessor>, arrays: bool)
    ensures Lookup(v, p + q, arrays) ==
      match Lookup(v, p, arrays) case None => None case Some(found) => Lookup(found, q, arrays)
    ensures p != [] && !v.JObj? && !v.JArr? ==> Lookup(v, p, arrays) == None
  {
    if p == [] {
      assert p + q == q;
    } else {
      assert (p + q)[0] == p[0] && (p + q)[1..] == p[1..] + q;
      var next := Child(v, p[0], arrays);
      if next.Some? {
        LookupChains(next.value, p[1..], q, arrays);
      }
    }
  }

  // ---------- the text of what a path finds ----------

  ghost predicate IsPath(p: seq<Accessor>) {
    p != [] && forall i :: 0 <= i < |p| ==> Printable(p[i])
  }

  lemma TextShows(value: Option<Json>, format: Json -> Option<string>)
    ensures Shows(TextOf(value, format), value, format)
  {
  }

  lemma TemplateTextShows(path: string, data: Json, format: Json -> Option<string>)
    ensures forall p :: IsPath(p) && path == PrintPath(p) ==>
      Shows(TextOf(TemplateValue(data, path), format), Lookup(data, p, false), format)
  {
    forall p | IsPath(p) && path == PrintPath(p)
      ensures Shows(TextOf(TemplateValue(data, path), format), Lookup(data, p, false), format)
    {
      PrintedPathLookup(data, p);
      TextShows(Lookup(data, p, false), format);
    }
  }

  lemma JsonTextShows(path: string, data: Json, format: Json -> Option<string>)
    ensures forall p :: IsPath(p) && path == "$." + PrintPath(p) ==>
      Shows(TextOf(JsonPathValue(data, path), format), Lookup(data, p, true), format)
  {
    forall p | IsPath(p) && path == "$." + PrintPath(p)
      ensures Shows(TextOf(JsonPathValue(data, path), format), Lookup(data, p, true), format)
    {
      PrintedPathLookup(data, p);
      TextShows(Lookup(data, p, true), format);
    }
  }

  // ---------- poll results ----------

  // What a step compares its polls with; an empty path or value never matches.
  datatype PollRule = PollRule(successPath: string, successValue: string, failurePath: string, failureValue: string)

  method MatchPollResult(response: Json, rule: PollRule, format: Json -> Option<string>)
    returns (success: bool, failure: bool)
    ensures success <==> Found(response, rule.successPath, rule.successValue, format)
    ensures failure <==> !success && Found(response, rule.failurePath, rule.failureValue, format)
  {
    if rule.successPath != "" && rule.successValue != "" {
      var text := ExtractByPath(response, rule.successPath, format);
      if text == Some(rule.successValue) {
        return true, false;
      }
    }
    if rule.failurePath != "" && rule.failureValue != "" {
      var text := ExtractByPath(response, rule.failurePath, format);
      if text == Some(rule.failureValue) {
        return false, true;
      }
    }
    return false, false;
  }

  predicate Found(response: Json, path: string, expected: string, format: Json -> Option<string>) {
    path != "" && expected != "" && TextOf(JsonPathValue(response, path), format) == Some(expected)
  }

  // That boolean, that string, that number, or an array or object that prints so.
  predicate Expected(value: Option<Json>, expected: string, format: Json -> Option<string>) {
    match value
    case None => false
    case Some(v) =>
      match v
      case JBool(b) => expected == (if b then "true" else "false")
      case JStr(s) => expected == s
      case JNum(n) => expected == n
      case JNull => expected == ""
      case _ => format(v) == Some(expected)
  }

  lemma TextExpected(value: Option<Json>, expected: string, format: Json -> Option<string>)
    ensures TextOf(value, format) == Some(expected) <==> Expected(value, expected, format)
  {
  }

  // A poll matches an expected text exactly when the lookup finds what is expected.
  lemma FoundMeans(response: Json, p: seq<Accessor>, expected: string, format: Json -> Option<string>)
    requires IsPath(p) && expected != ""
    ensures Found(response, "$." + PrintPath(p), expected, format) <==>
      Expected(Lookup(response, p, true), expected, format)
  {
    PrintedPathLookup(response, p);
    TextExpected(Lookup(response, p, true), expected, format);
    assert |"$." + PrintPath(p)| >= 2;
  }

  // The root is optional in front of a path that does not begin with '$' or '.'.
  lemma RootIsOptional(v: Json, path: string)
    requires path != "" && path[0] != '$' && path[0] != '.'
    ensures JsonPathValue(v, path) == JsonPathValue(v, "$." + path) == JsonPathValue(v, "$" + path)
  {
    assert ("$." + path)[2..] == path && ("$" + path)[1..] == path;
    assert "$." <= "$." + path && "$" <= "$" + path;
    assert ("$" + path)[1] == path[0];
  }
}
