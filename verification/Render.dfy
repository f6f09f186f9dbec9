// One-pass template rendering and its lifting to JSON trees (saga/template.go:24-101).
// Resolving a path and turning the value into text is a parameter: PathLookup says
// what it computes.
module Render {
  import opened Wrappers
  import opened PathSyntax
  import opened PathLookup

  type Resolver = string -> Option<string>

  // A match of the pattern \{([^}]+)\} from i to j.
  predicate GroupAt(s: string, i: nat, j: nat) {
    && i + 1 < j < |s| && s[i] == '{' && s[j] == '}'
    && forall k :: i < k < j ==> s[k] != '}'
  }

  ghost predicate HasGroup(s: string) {
    exists i: nat, j: nat :: GroupAt(s, i, j)
  }

  // Where the leftmost group starting at the first byte ends.
  function GroupEnd(s: string): (e: Option<nat>)
    ensures e.Some? ==> GroupAt(s, 0, e.value)
    ensures e.None? ==> forall j: nat :: !GroupAt(s, 0, j)
  {
    if s != "" && s[0] == '{' && IndexOf(s, '}').Some? && IndexOf(s, '}').value > 1 then
      FirstIndex(s, '}');
      Some(IndexOf(s, '}').value)
    else
      FirstIndex(s, '}');
      None
  }

  lemma {:induction false} FirstIndex(s: string, c: char)
    ensures IndexOf(s, c).Some? ==> forall k :: 0 <= k < IndexOf(s, c).value ==> s[k] != c
  {
    if s != "" && s[0] != c {
      FirstIndex(s[1..], c);
      if IndexOf(s[1..], c).Some? {
        forall k | 0 <= k < IndexOf(s, c).value ensures s[k] != c {
          if k > 0 {
            assert s[1..][k - 1] != c;
          }
        }
      }
    }
  }

  // Leftmost, non-overlapping replacement; an unresolved group stays as it is.
  function Substitute(tpl: string, resolve: Resolver): string
    decreases |tpl|
  {
    if tpl == "" then ""
    else match GroupEnd(tpl)
      case None => [tpl[0]] + Substitute(tpl[1..], resolve)
      case Some(e) =>
        (match resolve(tpl[1..e]) case Some(v) => v case None => tpl[..e + 1])
        + Substitute(tpl[e + 1..], resolve)
  }

  function RenderTemplate(tpl: string, resolve: Resolver): Option<string> {
    if tpl == "" then Some("")
    else
      var result := Substitute(tpl, resolve);
      if AnyGroup(result) then None else Some(result)
  }

  // regexp.MatchString, as a scan.
  predicate AnyGroup(s: string)
    decreases |s|
  {
    s != "" && (GroupEnd(s).Some? || AnyGroup(s[1..]))
  }

  lemma {:induction false} AnyGroupMeans(s: string)
    ensures AnyGroup(s) <==> HasGroup(s)
    decreases |s|
  {
    if s != "" {
      AnyGroupMeans(s[1..]);
      if HasGroup(s[1..]) {
        var i: nat, j: nat :| GroupAt(s[1..], i, j);
        GroupShift(s, 1, i, j);
      }
      if HasGroup(s) && GroupEnd(s).None? {
        var i: nat, j: nat :| GroupAt(s, i, j);
        GroupUnshift(s, 1, i, j);
      }
    }
  }

  lemma GroupShift(s: string, d: nat, i: nat, j: nat)
    requires d <= |s| && GroupAt(s[d..], i, j)
    ensures GroupAt(s, i + d, j + d)
  {
    forall k | i + d < k < j + d ensures s[k] != '}' {
      assert s[d..][k - d] != '}';
    }
  }

  lemma GroupUnshift(s: string, d: nat, i: nat, j: nat)
    requires d <= i && GroupAt(s, i, j)
    ensures GroupAt(s[d..], i - d, j - d)
  {
  }

  // ---------- what a successful rendering is ----------

  // The nonempty brace groups of a template, as the replacement visits them.
  function Groups(tpl: string): seq<string>
    decreases |tpl|
  {
    if tpl == "" then []
    else match GroupEnd(tpl)
      case None => Groups(tpl[1..])
      case Some(e) => [tpl[1..e]] + Groups(tpl[e + 1..])
  }

  // The literal bytes interleaved with the resolved values.
  function Filled(tpl: string, resolve: Resolver): string
    requires forall p :: p in Groups(tpl) ==> resolve(p).Some?
    decreases |tpl|
  {
    if tpl == "" then ""
    else match GroupEnd(tpl)
      case None => [tpl[0]] + Filled(tpl[1..], resolve)
      case Some(e) =>
        assert tpl[1..e] in Groups(tpl);
        resolve(tpl[1..e]).value + Filled(tpl[e + 1..], resolve)
  }

  predicate AllResolve(tpl: string, resolve: Resolver) {
    forall p :: p in Groups(tpl) ==> resolve(p).Some?
  }

  lemma {:induction false} SubstituteIsFilled(tpl: string, resolve: Resolver)
    requires AllResolve(tpl, resolve)
    ensures Substitute(tpl, resolve) == Filled(tpl, resolve)
    decreases |tpl|
  {
    if tpl != "" {
      match GroupEnd(tpl)
      case None => SubstituteIsFilled(tpl[1..], resolve);
      case Some(e) =>
        assert tpl[1..e] in Groups(tpl);
        SubstituteIsFilled(tpl[e + 1..], resolve);
    }
  }

  // An unresolved group survives and is found again.
  lemma {:induction false} UnresolvedSurvives(tpl: string, resolve: Resolver)
    requires !AllResolve(tpl, resolve)
    ensures HasGroup(Substitute(tpl, resolve))
    decreases |tpl|
  {
    var out := Substitute(tpl, resolve);
    match GroupEnd(tpl)
    case None =>
      UnresolvedSurvives(tpl[1..], resolve);
      var i: nat, j: nat :| GroupAt(Substitute(tpl[1..], resolve), i, j);
      assert out[1..] == Substitute(tpl[1..], resolve);
      GroupShift(out, 1, i, j);
    case Some(e) =>
      if resolve(tpl[1..e]).None? {
        assert out == tpl[..e + 1] + Substitute(tpl[e + 1..], resolve);
        assert GroupAt(out, 0, e);
      } else {
        UnresolvedSurvives(tpl[e + 1..], resolve);
        var i: nat, j: nat :| GroupAt(Substitute(tpl[e + 1..], resolve), i, j);
        var d := |resolve(tpl[1..e]).value|;
        assert out[d..] == Substitute(tpl[e + 1..], resolve);
        GroupShift(out, d, i, j);
      }
  }

  // Rendering succeeds exactly when every group resolves and the text with the values
  // filled in holds no nonempty brace group; then that text is the result.
  lemma RenderMeans(tpl: string, resolve: Resolver)
    ensures RenderTemplate(tpl, resolve).Some? <==> AllResolve(tpl, resolve) && !HasGroup(Filled(tpl, resolve))
    ensures RenderTemplate(tpl, resolve).Some? ==> RenderTemplate(tpl, resolve).value == Filled(tpl, resolve)
  {
    AnyGroupMeans(Substitute(tpl, resolve));
    if AllResolve(tpl, resolve) {
      SubstituteIsFilled(tpl, resolve);
    } else {
      UnresolvedSurvives(tpl, resolve);
    }
  }

  lemma {:induction false} NoGroupNoChange(s: string, resolve: Resolver)
    requires !AnyGroup(s)
    ensures Substitute(s, resolve) == s
    decreases |s|
  {
    if s != "" {
      NoGroupNoChange(s[1..], resolve);
    }
  }

  // A rendered text is final: rendering it again, against any data, changes nothing.
  lemma RenderIdempotent(tpl: string, resolve: Resolver, resolve': Resolver)
    requires RenderTemplate(tpl, resolve).Some?
    ensures RenderTemplate(RenderTemplate(tpl, resolve).value, resolve') == RenderTemplate(tpl, resolve)
  {
    NoGroupNoChange(RenderTemplate(tpl, resolve).value, resolve');
  }

  // Values without braces never cause a failure.
  lemma BraceFreeValuesRender(tpl: string, resolve: Resolver)
    requires AllResolve(tpl, resolve)
    requires forall p :: p in Groups(tpl) ==> '{' !in resolve(p).value && '}' !in resolve(p).value
    ensures RenderTemplate(tpl, resolve) == Some(Filled(tpl, resolve))
  {
    RenderMeans(tpl, resolve);
    FilledHasNoGroup(tpl, resolve);
  }

  lemma {:induction false} FilledHasNoGroup(tpl: string, resolve: Resolver)
    requires AllResolve(tpl, resolve)
    requires forall p :: p in Groups(tpl) ==> '{' !in resolve(p).value && '}' !in resolve(p).value
    ensures !HasGroup(Filled(tpl, resolve))
    decreases |tpl|
  {
    if tpl != "" {
      var out := Filled(tpl, resolve);
      var e := GroupEnd(tpl);
      var head := if e.None? then [tpl[0]] else resolve(tpl[1..e.value]).value;
      var rest := if e.None? then tpl[1..] else tpl[e.value + 1..];
      if e.Some? {
        assert tpl[1..e.value] in Groups(tpl);
      }
      FilledHasNoGroup(rest, resolve);
      assert out == head + Filled(rest, resolve) && out[|head|..] == Filled(rest, resolve);
      if i: nat, j: nat :| GroupAt(out, i, j) {
        if i >= |head| {
          GroupUnshift(out, |head|, i, j);
        } else if e.None? {
          LiteralBraceOpensNothing(tpl, resolve, j);
        }
      }
    }
  }

  // A '{' that is literal text is followed by '}' at once, or no '}' follows at all.
  lemma LiteralBraceOpensNothing(tpl: string, resolve: Resolver, j: nat)
    requires tpl != "" && GroupEnd(tpl).None? && AllResolve(tpl, resolve)
    ensures !GroupAt(Filled(tpl, resolve), 0, j)
  {
    if tpl[0] == '{' {
      var rest := tpl[1..];
      if '}' in rest {
        assert rest[0] == '}';
        assert Filled(tpl, resolve) == ['{'] + Filled(rest, resolve);
        assert Filled(rest, resolve)[0] == '}';
      } else {
        NoCloseNoChange(rest, resolve);
        assert Filled(tpl, resolve) == ['{'] + rest;
      }
    }
  }

  lemma {:induction false} NoCloseNoChange(s: string, resolve: Resolver)
    requires '}' !in s
    ensures Groups(s) == [] && Filled(s, resolve) == s
    decreases |s|
  {
    if s != "" {
      NoCloseNoChange(s[1..], resolve);
    }
  }

  lemma GroupFirst(p: string, rest: string)
    requires '}' !in p && p != ""
    ensures var tpl := "{" + p + "}" + rest;
      GroupEnd(tpl) == Some(|p| + 1) && tpl[1..|p| + 1] == p && tpl[|p| + 2..] == rest
  {
    var tpl := "{" + p + "}" + rest;
    assert tpl == ("{" + p) + ['}'] + rest;
    IndexOfAfter("{" + p, '}', rest);
  }

  lemma LiteralFirst(c: char, rest: string, resolve: Resolver)
    requires c != '{'
    ensures Groups([c] + rest) == Groups(rest)
    ensures AllResolve(rest, resolve) ==> Filled([c] + rest, resolve) == [c] + Filled(rest, resolve)
  {
    assert ([c] + rest)[1..] == rest;
  }

  // From left to right: literal text without an opening brace stays ...
  lemma {:induction false} LiteralStays(literal: string, rest: string, resolve: Resolver)
    requires '{' !in literal && AllResolve(rest, resolve)
    ensures Groups(literal + rest) == Groups(rest)
    ensures Filled(literal + rest, resolve) == literal + Filled(rest, resolve)
    decreases |literal|
  {
    if literal == "" {
      assert literal + rest == rest;
    } else {
      var c, tail := literal[0], literal[1..];
      assert literal == [c] + tail;
      LiteralStays(tail, rest, resolve);
      LiteralFirst(c, tail + rest, resolve);
      assert literal + rest == [c] + (tail + rest);
      assert literal + Filled(rest, resolve) == [c] + (tail + Filled(rest, resolve));
    }
  }

  // ... and a group gives way to its value.
  lemma GroupGivesWay(p: string, rest: string, resolve: Resolver)
    requires '}' !in p && p != ""
    ensures var tpl := "{" + p + "}" + rest;
      && Groups(tpl) == [p] + Groups(rest)
      && (AllResolve(rest, resolve) && resolve(p).Some? ==>
            AllResolve(tpl, resolve) && Filled(tpl, resolve) == resolve(p).value + Filled(rest, resolve))
  {
    GroupFirst(p, rest);
  }

  // An empty group is literal text.
  lemma EmptyGroupStays(rest: string, resolve: Resolver)
    requires AllResolve(rest, resolve)
    ensures Groups("{}" + rest) == Groups(rest)
    ensures Filled("{}" + rest, resolve) == "{}" + Filled(rest, resolve)
  {
    var tpl, tail := "{}" + rest, "}" + rest;
    LiteralFirst('}', rest, resolve);
    assert "}" == ['}'];
    assert tpl[1..] == tail && tpl[1] == '}';
    assert GroupEnd(tpl) == None;
    assert Filled(tpl, resolve) == ['{'] + Filled(tail, resolve);
  }

  // ---------- a template made of one path ----------

  function PathResolver(data: Json, format: Json -> Option<string>): Resolver {
    path => TextOf(TemplateValue(data, path), format)
  }

  lemma OneGroup(p: string)
    requires p != "" && '}' !in p
    ensures var tpl := "{" + p + "}";
      GroupEnd(tpl) == Some(|p| + 1) && tpl[1..|p| + 1] == p && tpl[|p| + 2..] == "" && Groups(tpl) == [p]
  {
    var tpl := "{" + p + "}";
    assert tpl == ("{" + p) + ['}'] + "";
    IndexOfAfter("{" + p, '}', "");
    assert tpl[|p| + 2..] == "";
    assert Groups(tpl) == [tpl[1..|p| + 1]] + Groups("");
  }

  lemma OneGroupFilled(p: string, resolve: Resolver)
    requires p != "" && '}' !in p
    ensures AllResolve("{" + p + "}", resolve) <==> resolve(p).Some?
    ensures resolve(p).Some? ==> Filled("{" + p + "}", resolve) == resolve(p).value
  {
    OneGroup(p);
    assert p in [p];
    if resolve(p).Some? {
      assert Filled("{" + p + "}", resolve) == resolve(p).value + Filled("", resolve);
    }
  }

  // A template that is one printed path renders to the text of the structural lookup
  // along its accessors, and to nothing else.
  lemma RenderPath(path: seq<Accessor>, data: Json, format: Json -> Option<string>)
    requires path != [] && forall i :: 0 <= i < |path| ==> Printable(path[i])
    requires PrintPath(path) != "" && '}' !in PrintPath(path)
    ensures var text := TextOf(Lookup(data, path, false), format);
      RenderTemplate("{" + PrintPath(path) + "}", PathResolver(data, format)) ==
        if text.Some? && !AnyGroup(text.value) then text else None
  {
    var resolve := PathResolver(data, format);
    PrintedPathLookup(data, path);
    OneGroupFilled(PrintPath(path), resolve);
    RenderMeans("{" + PrintPath(path) + "}", resolve);
    if resolve(PrintPath(path)).Some? {
      AnyGroupMeans(resolve(PrintPath(path)).value);
    }
  }

  // ---------- trees ----------

  function RenderValue(v: Json, resolve: Resolver): Option<Json> {
    match v
    case JStr(s) =>
      (match RenderTemplate(s, resolve) case Some(t) => Some(JStr(t)) case None => None)
    case JArr(items) =>
      if exists i :: 0 <= i < |items| && RenderValue(items[i], resolve).None? then None
      else Some(JArr(seq(|items|, i requires 0 <= i < |items| => RenderValue(items[i], resolve).value)))
    case JObj(fields) =>
      if exists k :: k in fields && RenderValue(fields[k], resolve).None? then None
      else Some(JObj(map k | k in fields :: RenderValue(fields[k], resolve).value))
    case _ => Some(v)
  }

  // The same tree with every string leaf rendered: keys, lengths and other leaves kept.
  ghost predicate RenderedAs(v: Json, r: Json, resolve: Resolver) {
    match v
    case JStr(s) => r.JStr? && RenderTemplate(s, resolve) == Some(r.s)
    case JArr(items) =>
      r.JArr? && |r.items| == |items| && forall i :: 0 <= i < |items| ==> RenderedAs(items[i], r.items[i], resolve)
    case JObj(fields) =>
      r.JObj? && r.fields.Keys == fields.Keys && forall k :: k in fields ==> RenderedAs(fields[k], r.fields[k], resolve)
    case _ => r == v
  }

  ghost predicate EveryLeafRenders(v: Json, resolve: Resolver) {
    match v
    case JStr(s) => RenderTemplate(s, resolve).Some?
    case JArr(items) => forall i :: 0 <= i < |items| ==> EveryLeafRenders(items[i], resolve)
    case JObj(fields) => forall k :: k in fields ==> EveryLeafRenders(fields[k], resolve)
    case _ => true
  }

  lemma {:induction false} RenderValueMeans(v: Json, r: Json, resolve: Resolver)
    ensures RenderValue(v, resolve) == Some(r) <==> RenderedAs(v, r, resolve)
  {
    match v
    case JArr(items) =>
      if r.JArr? && |r.items| == |items| {
        forall i | 0 <= i < |items|
          ensures RenderValue(items[i], resolve) == Some(r.items[i]) <==> RenderedAs(items[i], r.items[i], resolve)
        {
          RenderValueMeans(items[i], r.items[i], resolve);
        }
        if RenderedAs(v, r, resolve) {
          assert RenderValue(v, resolve).value.items == r.items;
        }
      }
    case JObj(fields) =>
      if r.JObj? && r.fields.Keys == fields.Keys {
        forall k | k in fields
          ensures RenderValue(fields[k], resolve) == Some(r.fields[k]) <==> RenderedAs(fields[k], r.fields[k], resolve)
        {
          RenderValueMeans(fields[k], r.fields[k], resolve);
        }
        if RenderedAs(v, r, resolve) {
          assert forall k :: k in fields ==> k in r.fields;
          assert RenderValue(v, resolve).value.fields == r.fields;
        }
      }
    case _ =>
  }

  lemma {:induction false} RenderValueSucceeds(v: Json, resolve: Resolver)
    ensures RenderValue(v, resolve).Some? <==> EveryLeafRenders(v, resolve)
  {
    match v
    case JArr(items) =>
      forall i | 0 <= i < |items|
        ensures RenderValue(items[i], resolve).Some? <==> EveryLeafRenders(items[i], resolve)
      {
        RenderValueSucceeds(items[i], resolve);
      }
    case JObj(fields) =>
      forall k | k in fields ensures RenderValue(fields[k], resolve).Some? <==> EveryLeafRenders(fields[k], resolve) {
        RenderValueSucceeds(fields[k], resolve);
      }
    case _ =>
  }

  lemma {:induction false} RenderValueIdempotent(v: Json, r: Json, resolve: Resolver, resolve': Resolver)
    requires RenderedAs(v, r, resolve)
    ensures RenderedAs(r, r, resolve')
  {
    match v
    case JStr(s) => RenderIdempotent(s, resolve, resolve');
    case JArr(items) =>
      forall i | 0 <= i < |items| ensures RenderedAs(r.items[i], r.items[i], resolve') {
        RenderValueIdempotent(items[i], r.items[i], resolve, resolve');
      }
    case JObj(fields) =>
      forall k | k in fields ensures RenderedAs(r.fields[k], r.fields[k], resolve') {
        RenderValueIdempotent(fields[k], r.fields[k], resolve, resolve');
      }
    case _ =>
  }
}
