// The two hand-written path parsers (saga/template.go:148-217, saga/jsonpath.go:95-167).
// Strings are sequences of bytes.
module PathSyntax {
  import opened Wrappers

  // ---------- byte search and decimal numbers ----------

  function IndexOf(s: string, c: char): (r: Option<nat>)
    ensures r.Some? ==> r.value < |s| && s[r.value] == c
    ensures r.None? <==> c !in s
  {
    if s == "" then None
    else if s[0] == c then Some(0)
    else match IndexOf(s[1..], c)
      case Some(k) => Some(k + 1)
      case None => None
  }

  predicate IsDigit(c: char) {
    '0' <= c <= '9'
  }

  predicate AllDigits(s: string) {
    forall k :: 0 <= k < |s| ==> IsDigit(s[k])
  }

  function DigitsValue(s: string): nat
    requires AllDigits(s)
  {
    if s == "" then 0 else 10 * DigitsValue(s[..|s| - 1]) + (s[|s| - 1] as int - '0' as int)
  }

  const MAX_INT := 0x7FFF_FFFF_FFFF_FFFF
  const MIN_INT := -0x8000_0000_0000_0000

  // strconv.Atoi: an optional sign, at least one digit, and a 64-bit result.
  function Atoi(s: string): Option<int> {
    var signed := s != "" && (s[0] == '-' || s[0] == '+');
    var digits := if signed then s[1..] else s;
    if digits == "" || !AllDigits(digits) then None
    else
      var v: int := if signed && s[0] == '-' then -(DigitsValue(digits) as int) else DigitsValue(digits) as int;
      if MIN_INT <= v <= MAX_INT then Some(v) else None
  }

  function Itoa(n: nat): (s: string)
    ensures s != "" && AllDigits(s)
  {
    var last := ('0' as int + n % 10) as char;
    if n < 10 then [last] else Itoa(n / 10) + [last]
  }

  lemma {:induction false} DigitsOfItoa(n: nat)
    ensures DigitsValue(Itoa(n)) == n
  {
    var s := Itoa(n);
    if n >= 10 {
      DigitsOfItoa(n / 10);
      assert s[..|s| - 1] == Itoa(n / 10);
    } else {
      assert s[..0] == "";
    }
  }

  lemma AtoiOfItoa(n: nat)
    requires n <= MAX_INT
    ensures Atoi(Itoa(n)) == Some(n)
  {
    DigitsOfItoa(n);
    assert IsDigit(Itoa(n)[0]);
  }

  // A sign is read, an overflow is refused; the most negative number is in range.
  lemma AtoiSigned(n: nat)
    ensures Atoi(Itoa(n)) == if n < 0x8000_0000_0000_0000 then Some(n) else None
    ensures Atoi("+" + Itoa(n)) == if n < 0x8000_0000_0000_0000 then Some(n) else None
    ensures Atoi("-" + Itoa(n)) == if n <= 0x8000_0000_0000_0000 then Some(-(n as int)) else None
  {
    DigitsOfItoa(n);
    assert IsDigit(Itoa(n)[0]);
    assert ("+" + Itoa(n))[1..] == Itoa(n) && ("-" + Itoa(n))[1..] == Itoa(n);
  }

  // Whatever else is in the text, it is no number.
  lemma AtoiRefuses(s: string, k: nat)
    requires k < |s| && !('0' <= s[k] <= '9') && (k > 0 || (s[0] != '-' && s[0] != '+'))
    ensures Atoi(s) == None
  {
    var signed := s[0] == '-' || s[0] == '+';
    assert signed ==> !IsDigit(s[1..][k - 1]);
  }

  // Decimal: the digits of a text count ten times as much in front of another digit.
  lemma DigitsShift(s: string, d: nat)
    requires AllDigits(s) && d <= 9
    ensures var c := "0123456789"[d];
      AllDigits(s + [c]) && DigitsValue(s + [c]) == 10 * DigitsValue(s) + d
  {
    var c := "0123456789"[d];
    assert c as int == '0' as int + d;
    assert (s + [c])[..|s|] == s;
  }

  // ---------- the parsers, on the rest of the path and the part under construction ----------

  function Flush(cur: string): seq<string> {
    if cur != "" then [cur] else []
  }

  function TemplateParts(path: string, cur: string): seq<string>
    decreases |path|
  {
    if path == "" then Flush(cur)
    else if path[0] == '.' then Flush(cur) + TemplateParts(path[1..], "")
    else if path[0] == '[' then
      match IndexOf(path, ']')
      case None => [cur + path]
      case Some(e) => TemplateParts(path[e + 1..], cur + path[..e + 1])
    else TemplateParts(path[1..], cur + [path[0]])
  }

  // Differs in one place: a closed bracket group at the start of a part becomes a part
  // of its own, without the brackets.
  function JsonParts(path: string, cur: string): seq<string>
    decreases |path|
  {
    if path == "" then Flush(cur)
    else if path[0] == '.' then Flush(cur) + JsonParts(path[1..], "")
    else if path[0] == '[' then
      match IndexOf(path, ']')
      case None => [cur + path]
      case Some(e) =>
        if cur != "" then JsonParts(path[e + 1..], cur + path[..e + 1])
        else [path[1..e]] + JsonParts(path[e + 1..], "")
    else JsonParts(path[1..], cur + [path[0]])
  }

  method FindByte(s: string, c: char) returns (r: Option<nat>)
    ensures r == IndexOf(s, c)
  {
    var i := 0;
    while i < |s|
      invariant 0 <= i <= |s|
      invariant IndexOf(s, c) == match IndexOf(s[i..], c) case Some(k) => Some(k + i) case None => None
    {
      if s[i] == c {
        return Some(i);
      }
      assert s[i..][1..] == s[i + 1..];
      i := i + 1;
    }
    return None;
  }

  // How one character or one bracket group moves a parse forward, behind the parts so far.
  lemma TemplatePartsAtDot(parts: seq<string>, rest: string, cur: string)
    requires rest != "" && rest[0] == '.'
    ensures parts + TemplateParts(rest, cur) == (parts + Flush(cur)) + TemplateParts(rest[1..], "")
  {
  }

  lemma TemplatePartsAtGroup(parts: seq<string>, rest: string, cur: string, e: nat)
    requires rest != "" && rest[0] == '[' && IndexOf(rest, ']') == Some(e)
    ensures parts + TemplateParts(rest, cur) == parts + TemplateParts(rest[e + 1..], cur + rest[..e + 1])
  {
  }

  method ParsePathParts(path: string) returns (parts: seq<string>)
    ensures parts == TemplateParts(path, "")
  {
    parts := [];
    var current := "";
    var i := 0;
    while i < |path|
      invariant 0 <= i <= |path|
      invariant parts + TemplateParts(path[i..], current) == TemplateParts(path, "")
    {
      var rest := path[i..];
      var c := rest[0];
      if c == '.' {
        TemplatePartsAtDot(parts, rest, current);
        if |current| > 0 {
          parts := parts + [current];
          current := "";
        }
        i := i + 1;
        assert path[i..] == rest[1..];
      } else if c == '[' {
        var end := FindByte(rest, ']');
        if end.None? {
          current := current + rest;
          return parts + [current];
        }
        TemplatePartsAtGroup(parts, rest, current, end.value);
        current := current + rest[..end.value + 1];
        i := i + end.value + 1;
        assert path[i..] == rest[end.value + 1..];
      } else {
        current := current + [c];
        i := i + 1;
        assert path[i..] == rest[1..];
      }
    }
    if |current| > 0 {
      parts := parts + [current];
    }
  }

  lemma JsonPartsAtDot(parts: seq<string>, rest: string, cur: string)
    requires rest != "" && rest[0] == '.'
    ensures parts + JsonParts(rest, cur) == (parts + Flush(cur)) + JsonParts(rest[1..], "")
  {
  }

  lemma JsonPartsAtGroup(parts: seq<string>, rest: string, cur: string, e: nat)
    requires rest != "" && rest[0] == '[' && IndexOf(rest, ']') == Some(e)
    ensures cur != "" ==> parts + JsonParts(rest, cur) == parts + JsonParts(rest[e + 1..], cur + rest[..e + 1])
    ensures cur == "" ==> parts + JsonParts(rest, cur) == (parts + [rest[1..e]]) + JsonParts(rest[e + 1..], "")
  {
    var tail := JsonParts(rest[e + 1..], "");
    assert parts + ([rest[1..e]] + tail) == (parts + [rest[1..e]]) + tail;
  }

  method ParseJSONPathParts(path: string) returns (parts: seq<string>)
    ensures parts == JsonParts(path, "")
  {
    parts := [];
    var current := "";
    var i := 0;
    while i < |path|
      invariant 0 <= i <= |path|
      invariant parts + JsonParts(path[i..], current) == JsonParts(path, "")
    {
      var rest := path[i..];
      var c := rest[0];
      if c == '.' {
        JsonPartsAtDot(parts, rest, current);
        if |current| > 0 {
          parts := parts + [current];
          current := "";
        }
        i := i + 1;
        assert path[i..] == rest[1..];
      } else if c == '[' {
        var end := FindByte(rest, ']');
        if end.None? {
          current := current + rest;
          return parts + [current];
        }
        JsonPartsAtGroup(parts, rest, current, end.value);
        if |current| > 0 {
          current := current + rest[..end.value + 1];
        } else {
          parts := parts + [rest[1..end.value]];
        }
        i := i + end.value + 1;
        assert path[i..] == rest[end.value + 1..];
      } else {
        current := current + [c];
        i := i + 1;
        assert path[i..] == rest[1..];
      }
    }
    if |current| > 0 {
      parts := parts + [current];
    }
  }

  // "items[0]" -> (0, "items"); anything else has no index. Both files share this text.
  function ArrayIndex(part: string): Option<(int, string)> {
    match IndexOf(part, '[')
    case None => None
    case Some(start) =>
      match IndexOf(part, ']')
      case None => None
      case Some(end) =>
        if end <= start + 1 then None
        else match Atoi(part[start + 1..end])
          case None => None
          case Some(idx) => Some((idx, part[..start]))
  }

  // ---------- agreement of the two parsers ----------

  // No closed bracket group starts a part.
  predicate NoLeadingGroup(path: string, cur: string)
    decreases |path|
  {
    if path == "" then true
    else if path[0] == '.' then NoLeadingGroup(path[1..], "")
    else if path[0] == '[' then
      match IndexOf(path, ']')
      case None => true
      case Some(e) => cur != "" && NoLeadingGroup(path[e + 1..], cur + path[..e + 1])
    else NoLeadingGroup(path[1..], cur + [path[0]])
  }

  // The part under construction becomes a prefix of the next part.
  lemma {:induction false} FirstPartExtends(path: string, cur: string)
    requires cur != ""
    ensures var parts := TemplateParts(path, cur); |parts| > 0 && cur <= parts[0]
    decreases |path|
  {
    if path != "" && path[0] != '.' {
      if path[0] == '[' {
        var e := IndexOf(path, ']');
        if e.Some? {
          FirstPartExtends(path[e.value + 1..], cur + path[..e.value + 1]);
        }
      } else {
        FirstPartExtends(path[1..], cur + [path[0]]);
      }
    }
  }

  // The two parsers give identical parts on exactly the paths in which no closed
  // bracket group starts a part.
  lemma {:induction false} ParsersAgree(path: string, cur: string)
    ensures TemplateParts(path, cur) == JsonParts(path, cur) <==> NoLeadingGroup(path, cur)
    decreases |path|
  {
    if path == "" {
    } else if path[0] == '.' {
      ParsersAgree(path[1..], "");
      PrefixCancels(Flush(cur), TemplateParts(path[1..], ""), JsonParts(path[1..], ""));
    } else if path[0] == '[' {
      var end := IndexOf(path, ']');
      if end.Some? {
        var e := end.value;
        if cur != "" {
          ParsersAgree(path[e + 1..], cur + path[..e + 1]);
        } else {
          FirstPartExtends(path[e + 1..], path[..e + 1]);
          assert TemplateParts(path, "") == TemplateParts(path[e + 1..], "" + path[..e + 1]);
          assert "" + path[..e + 1] == path[..e + 1];
          assert JsonParts(path, "")[0] == path[1..e];
          assert |TemplateParts(path, "")[0]| >= e + 1;
        }
      }
    } else {
      ParsersAgree(path[1..], cur + [path[0]]);
    }
  }

  lemma PrefixCancels(p: seq<string>, a: seq<string>, b: seq<string>)
    ensures p + a == p + b <==> a == b
  {
    if p + a == p + b {
      assert a == (p + a)[|p|..];
      assert b == (p + b)[|p|..];
    }
  }

  // ---------- printing and reading back ----------

  datatype Accessor = Key(key: string) | At(key: string, index: nat)

  predicate PlainKey(k: string) {
    k != "" && '.' !in k && '[' !in k && ']' !in k
  }

  predicate Printable(a: Accessor) {
    PlainKey(a.key) && (a.At? ==> a.index <= MAX_INT)
  }

  function Print(a: Accessor): (s: string) {
    match a
    case Key(k) => k
    case At(k, i) => k + "[" + Itoa(i) + "]"
  }

  function PrintAll(path: seq<Accessor>): seq<string> {
    seq(|path|, i requires 0 <= i < |path| => Print(path[i]))
  }

  function PrintPath(path: seq<Accessor>): string {
    if path == [] then ""
    else if |path| == 1 then Print(path[0])
    else Print(path[0]) + "." + PrintPath(path[1..])
  }

  lemma {:induction false} IndexOfAfter(a: string, c: char, b: string)
    requires c !in a
    ensures IndexOf(a + [c] + b, c) == Some(|a|)
  {
    if a == "" {
      assert (a + [c] + b)[0] == c;
    } else {
      IndexOfAfter(a[1..], c, b);
      assert (a + [c] + b)[1..] == a[1..] + [c] + b;
      assert (a + [c] + b)[0] == a[0];
    }
  }

  lemma {:induction false} ScanKey(k: string, rest: string, cur: string)
    requires '.' !in k && '[' !in k
    ensures TemplateParts(k + rest, cur) == TemplateParts(rest, cur + k)
    ensures JsonParts(k + rest, cur) == JsonParts(rest, cur + k)
    decreases |k|
  {
    if k == "" {
      assert k + rest == rest && cur + k == cur;
    } else {
      ScanKey(k[1..], rest, cur + [k[0]]);
      assert (k + rest)[0] == k[0] && (k + rest)[1..] == k[1..] + rest;
      assert cur + [k[0]] + k[1..] == cur + k;
    }
  }

  lemma ScanGroup(digits: string, rest: string, cur: string)
    requires AllDigits(digits) && cur != ""
    ensures TemplateParts("[" + digits + "]" + rest, cur) == TemplateParts(rest, cur + "[" + digits + "]")
    ensures JsonParts("[" + digits + "]" + rest, cur) == JsonParts(rest, cur + "[" + digits + "]")
  {
    var path := "[" + digits + "]" + rest;
    forall k | 0 <= k < |"[" + digits| ensures ("[" + digits)[k] != ']' {
      assert k > 0 ==> IsDigit(digits[k - 1]);
    }
    IndexOfAfter("[" + digits, ']', rest);
    var e := |digits| + 1;
    assert path[0] == '[' && path[e + 1..] == rest && path[..e + 1] == "[" + digits + "]";
    assert cur + path[..e + 1] == cur + "[" + digits + "]";
  }

  lemma ScanAccessor(a: Accessor, rest: string)
    requires Printable(a)
    ensures TemplateParts(Print(a) + rest, "") == TemplateParts(rest, Print(a))
    ensures JsonParts(Print(a) + rest, "") == JsonParts(rest, Print(a))
  {
    if a.Key? {
      ScanKey(a.key, rest, "");
      assert "" + a.key == a.key;
    } else {
      var tail := "[" + Itoa(a.index) + "]";
      assert Print(a) + rest == a.key + (tail + rest);
      ScanKey(a.key, tail + rest, "");
      assert "" + a.key == a.key;
      ScanGroup(Itoa(a.index), rest, a.key);
      assert a.key + "[" + Itoa(a.index) + "]" == Print(a);
    }
  }

  lemma PrintedPathCons(path: seq<Accessor>)
    requires |path| > 1
    ensures PrintPath(path) == Print(path[0]) + ("." + PrintPath(path[1..]))
  {
    Associates(Print(path[0]), ".", PrintPath(path[1..]));
  }

  lemma Associates(a: string, b: string, c: string)
    ensures (a + b) + c == a + (b + c)
  {
  }

  lemma PrintAllCons(path: seq<Accessor>)
    requires |path| > 1
    ensures PrintAll(path) == [Print(path[0])] + PrintAll(path[1..])
  {
    var all, tail := PrintAll(path), PrintAll(path[1..]);
    assert forall i :: 0 <= i < |tail| ==> all[i + 1] == tail[i];
  }

  lemma ScanDot(rest: string, cur: string)
    requires cur != ""
    ensures TemplateParts("." + rest, cur) == [cur] + TemplateParts(rest, "")
    ensures JsonParts("." + rest, cur) == [cur] + JsonParts(rest, "")
  {
    assert ("." + rest)[1..] == rest;
  }

  // Both parsers read every printed path back as the parts it was printed from.
  lemma {:induction false} PartsOfPrintedPath(path: seq<Accessor>)
    requires forall i :: 0 <= i < |path| ==> Printable(path[i])
    ensures TemplateParts(PrintPath(path), "") == PrintAll(path)
    ensures JsonParts(PrintPath(path), "") == PrintAll(path)
  {
    if |path| == 1 {
      ScanAccessor(path[0], "");
      assert Print(path[0]) + "" == Print(path[0]);
      assert PrintAll(path) == [Print(path[0])];
    } else if |path| > 1 {
      PartsOfPrintedPath(path[1..]);
      PrintedPathCons(path);
      PrintAllCons(path);
      ScanAccessor(path[0], "." + PrintPath(path[1..]));
      ScanDot(PrintPath(path[1..]), Print(path[0]));
    }
  }

  lemma DigitsHoldNoBracket(key: string, digits: string)
    requires ']' !in key && AllDigits(digits)
    ensures ']' !in key + "[" + digits
  {
    assert forall k :: 0 <= k < |digits| ==> IsDigit(digits[k]);
  }

  lemma BracketsOfPrinted(key: string, digits: string)
    requires PlainKey(key) && AllDigits(digits)
    ensures var part := key + "[" + digits + "]";
      IndexOf(part, '[') == Some(|key|) && IndexOf(part, ']') == Some(|key| + 1 + |digits|)
  {
    var part := key + "[" + digits + "]";
    DigitsHoldNoBracket(key, digits);
    assert part == key + ['['] + (digits + "]");
    IndexOfAfter(key, '[', digits + "]");
    assert part == (key + "[" + digits) + [']'] + "";
    IndexOfAfter(key + "[" + digits, ']', "");
  }

  lemma SlicesOfPrinted(key: string, digits: string)
    ensures var part := key + "[" + digits + "]";
      part[|key| + 1..|key| + 1 + |digits|] == digits && part[..|key|] == key
  {
  }

  // ... and each part as its accessor.
  lemma IndexOfPrinted(a: Accessor)
    requires Printable(a)
    ensures ArrayIndex(Print(a)) == if a.Key? then None else Some((a.index, a.key))
  {
    if a.At? {
      BracketsOfPrinted(a.key, Itoa(a.index));
      SlicesOfPrinted(a.key, Itoa(a.index));
      AtoiOfItoa(a.index);
    }
  }

  // ---------- parts and paths that no accessor prints ----------

  // The index of a part stands between its first '[' and its first ']', if it is a
  // number; what follows is ignored.
  lemma IndexMeans(key: string, inner: string, rest: string)
    requires '[' !in key && ']' !in key && ']' !in inner
    ensures ArrayIndex(key + "[" + inner + "]" + rest) ==
      match Atoi(inner) case None => None case Some(idx) => Some((idx, key))
  {
    var part := key + "[" + inner + "]" + rest;
    assert IndexOf(part, '[') == Some(|key|) by {
      assert part == key + ['['] + (inner + "]" + rest);
      IndexOfAfter(key, '[', inner + "]" + rest);
    }
    assert IndexOf(part, ']') == Some(|key| + 1 + |inner|) by {
      var before := key + "[" + inner;
      assert ']' !in before;
      assert part == before + [']'] + rest;
      IndexOfAfter(before, ']', rest);
    }
    assert part[|key| + 1..|key| + 1 + |inner|] == inner && part[..|key|] == key;
  }

  // Without a closing bracket there is none, nor without an opening one.
  lemma NoIndex(part: string)
    requires '[' !in part || ']' !in part
    ensures ArrayIndex(part) == None
  {
  }

  // A ']' before the first '[' leaves a part without an index.
  lemma NoIndexInside(key: string, rest: string)
    requires '[' !in key && ']' !in key
    ensures ArrayIndex(key + "]" + rest) == None
  {
    var part := key + "]" + rest;
    assert part == key + [']'] + rest;
    IndexOfAfter(key, ']', rest);
    assert forall k :: 0 <= k < |key| ==> part[k] == key[k] && key[k] in key;
    assert part[|key|] == ']';
  }

  // Dots only separate: an empty part is dropped.
  lemma DotMeans(key: string, rest: string)
    requires '.' !in key && '[' !in key
    ensures TemplateParts(key + "." + rest, "") == (if key == "" then [] else [key]) + TemplateParts(rest, "")
    ensures JsonParts(key + "." + rest, "") == (if key == "" then [] else [key]) + JsonParts(rest, "")
  {
    assert key + "." + rest == key + ("." + rest);
    ScanKey(key, "." + rest, "");
    assert "" + key == key && ("." + rest)[1..] == rest;
  }

  // After an unclosed bracket everything, dots included, belongs to the last part.
  lemma UnclosedMeans(key: string, rest: string)
    requires '.' !in key && '[' !in key && ']' !in rest
    ensures TemplateParts(key + "[" + rest, "") == JsonParts(key + "[" + rest, "") == [key + "[" + rest]
  {
    assert key + "[" + rest == key + ("[" + rest);
    ScanKey(key, "[" + rest, "");
    assert "" + key == key;
    assert ']' !in "[" + rest;
    assert key + ("[" + rest) == key + "[" + rest;
  }

  // A group at the start is a part of its own to the one parser, and the beginning of
  // a part to the other.
  lemma LeadingGroupMeans(group: string, rest: string)
    requires ']' !in group
    ensures JsonParts("[" + group + "]" + rest, "") == [group] + JsonParts(rest, "")
    ensures TemplateParts("[" + group + "]" + rest, "") == TemplateParts(rest, "[" + group + "]")
  {
    var path := "[" + group + "]" + rest;
    assert ']' !in "[" + group;
    IndexOfAfter("[" + group, ']', rest);
    assert path == ("[" + group) + [']'] + rest;
    assert path[..|group| + 2] == "[" + group + "]" && path[|group| + 2..] == rest && path[1..|group| + 1] == group;
    assert "" + path[..|group| + 2] == "[" + group + "]";
  }
}
