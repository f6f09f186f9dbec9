// Canonical query strings (auth/aksk.go:332-362). url.ParseQuery is a parameter;
// sort.Strings, url.QueryEscape and strings.Join are written out.
module CanonicalQuery {
  import opened Wrappers
  import opened PathSyntax

  type Byte = c: char | c as int < 256
  type Bytes = seq<Byte>

  // ---------- order and sorting ----------

  predicate Leq(a: string, b: string) {
    a == "" || (b != "" && (a[0] < b[0] || (a[0] == b[0] && Leq(a[1..], b[1..]))))
  }

  lemma {:induction false} LeqTotal(a: string, b: string)
    ensures Leq(a, b) || Leq(b, a)
    ensures Leq(a, b) && Leq(b, a) ==> a == b
  {
    if a != "" && b != "" && a[0] == b[0] {
      LeqTotal(a[1..], b[1..]);
      assert a == [a[0]] + a[1..] && b == [b[0]] + b[1..];
    }
  }

  lemma {:induction false} LeqTransitive(a: string, b: string, c: string)
    requires Leq(a, b) && Leq(b, c)
    ensures Leq(a, c)
  {
    if a != "" && a[0] == b[0] && b[0] == c[0] {
      LeqTransitive(a[1..], b[1..], c[1..]);
    }
  }

  predicate Sorted(s: seq<Bytes>) {
    forall i, j :: 0 <= i < j < |s| ==> Leq(s[i], s[j])
  }

  function Insert(x: Bytes, s: seq<Bytes>): seq<Bytes> {
    if s == [] then [x]
    else if Leq(x, s[0]) then [x] + s
    else [s[0]] + Insert(x, s[1..])
  }

  function Sort(s: seq<Bytes>): seq<Bytes> {
    if s == [] then [] else Insert(s[0], Sort(s[1..]))
  }

  lemma {:induction false} InsertKeepsElements(x: Bytes, s: seq<Bytes>)
    ensures multiset(Insert(x, s)) == multiset(s) + multiset{x}
  {
    if s != [] {
      assert s == [s[0]] + s[1..];
      InsertKeepsElements(x, s[1..]);
    }
  }

  predicate Below(x: Bytes, s: seq<Bytes>) {
    forall j :: 0 <= j < |s| ==> Leq(x, s[j])
  }

  lemma SortedCons(x: Bytes, s: seq<Bytes>)
    requires Sorted(s) && Below(x, s)
    ensures Sorted([x] + s)
  {
  }

  lemma {:induction false} InsertBelow(y: Bytes, x: Bytes, s: seq<Bytes>)
    requires Leq(y, x) && Below(y, s)
    ensures Below(y, Insert(x, s))
  {
    if s != [] && !Leq(x, s[0]) {
      InsertBelow(y, x, s[1..]);
    }
  }

  lemma {:induction false} InsertSorts(x: Bytes, s: seq<Bytes>)
    requires Sorted(s)
    ensures Sorted(Insert(x, s)) && multiset(Insert(x, s)) == multiset(s) + multiset{x}
  {
    InsertKeepsElements(x, s);
    if s != [] {
      LeqTotal(x, s[0]);
      if Leq(x, s[0]) {
        forall j | 0 <= j < |s| ensures Leq(x, s[j]) {
          if j > 0 {
            LeqTransitive(x, s[0], s[j]);
          }
        }
        SortedCons(x, s);
      } else {
        InsertSorts(x, s[1..]);
        InsertBelow(s[0], x, s[1..]);
        SortedCons(s[0], Insert(x, s[1..]));
      }
    }
  }

  lemma {:induction false} SortSorts(s: seq<Bytes>)
    ensures Sorted(Sort(s)) && multiset(Sort(s)) == multiset(s)
  {
    if s != [] {
      SortSorts(s[1..]);
      InsertSorts(s[0], Sort(s[1..]));
      assert s == [s[0]] + s[1..];
    }
  }

  lemma LeastAgree(a: seq<Bytes>, b: seq<Bytes>)
    requires Sorted(a) && Sorted(b) && multiset(a) == multiset(b) && a != []
    ensures b != [] && a[0] == b[0]
  {
    assert a[0] in multiset(b);
    assert b[0] in multiset(a);
    var i :| 0 <= i < |b| && b[i] == a[0];
    var j :| 0 <= j < |a| && a[j] == b[0];
    LeqTotal(a[0], b[0]);
    assert i == 0 || Leq(b[0], b[i]);
    assert j == 0 || Leq(a[0], a[j]);
  }

  lemma WithoutFirst(s: seq<Bytes>)
    requires s != []
    ensures s == [s[0]] + s[1..] && multiset(s[1..]) == multiset(s) - multiset{s[0]}
  {
    assert s == [s[0]] + s[1..];
  }

  lemma {:induction false} SameSorting(a: seq<Bytes>, b: seq<Bytes>)
    requires Sorted(a) && Sorted(b) && multiset(a) == multiset(b)
    ensures a == b
  {
    if a == [] {
      assert |multiset(b)| == |b|;
    } else {
      LeastAgree(a, b);
      WithoutFirst(a);
      WithoutFirst(b);
      SameSorting(a[1..], b[1..]);
    }
  }

  // Sorting depends on the elements only, not on the order they come in.
  lemma SortCanonical(a: seq<Bytes>, b: seq<Bytes>)
    requires multiset(a) == multiset(b)
    ensures Sort(a) == Sort(b)
  {
    SortSorts(a);
    SortSorts(b);
    SameSorting(Sort(a), Sort(b));
  }

  // ---------- escaping ----------

  predicate Unreserved(c: char) {
    ('a' <= c <= 'z') || ('A' <= c <= 'Z') || ('0' <= c <= '9') || c == '-' || c == '_' || c == '.' || c == '~'
  }

  function HexDigit(n: nat): char
    requires n < 16
  {
    if n < 10 then ('0' as int + n) as char else ('A' as int + n - 10) as char
  }

  function EscapeByte(c: Byte): string {
    if Unreserved(c) then [c]
    else if c == ' ' then "+"
    else ['%', HexDigit(c as int / 16), HexDigit(c as int % 16)]
  }

  function QueryEscape(s: Bytes): string {
    if s == [] then "" else EscapeByte(s[0]) + QueryEscape(s[1..])
  }

  lemma EscapeBytePrefix(a: Byte, x: string, b: Byte, y: string)
    requires EscapeByte(a) + x == EscapeByte(b) + y
    ensures a == b && x == y
  {
    var l := EscapeByte(a) + x;
    var r := EscapeByte(b) + y;
    assert l[0] == EscapeByte(a)[0] && r[0] == EscapeByte(b)[0];
    assert |EscapeByte(a)| == |EscapeByte(b)|;
    if |EscapeByte(a)| == 3 {
      assert l[1] == HexDigit(a as int / 16) && r[1] == HexDigit(b as int / 16);
      assert l[2] == HexDigit(a as int % 16) && r[2] == HexDigit(b as int % 16);
      HexInjective(a as int / 16, b as int / 16);
      HexInjective(a as int % 16, b as int % 16);
    }
    assert x == l[|EscapeByte(a)|..] && y == r[|EscapeByte(a)|..];
  }

  lemma HexInjective(m: nat, n: nat)
    requires m < 16 && n < 16 && HexDigit(m) == HexDigit(n)
    ensures m == n
  {
  }

  lemma {:induction false} QueryEscapeInjective(a: Bytes, b: Bytes)
    requires QueryEscape(a) == QueryEscape(b)
    ensures a == b
  {
    if a != [] && b != [] {
      EscapeBytePrefix(a[0], QueryEscape(a[1..]), b[0], QueryEscape(b[1..]));
      QueryEscapeInjective(a[1..], b[1..]);
      assert a == [a[0]] + a[1..] && b == [b[0]] + b[1..];
    }
  }

  lemma EscapeByteClean(c: Byte)
    ensures '&' !in EscapeByte(c) && '=' !in EscapeByte(c)
  {
    HexDigitClean(c as int / 16);
    HexDigitClean(c as int % 16);
  }

  lemma HexDigitClean(n: nat)
    requires n < 16
    ensures HexDigit(n) != '&' && HexDigit(n) != '='
  {
  }

  lemma {:induction false} QueryEscapeClean(s: Bytes)
    ensures '&' !in QueryEscape(s) && '=' !in QueryEscape(s)
  {
    if s != [] {
      EscapeByteClean(s[0]);
      QueryEscapeClean(s[1..]);
    }
  }

  // ---------- encoding pairs ----------

  type Pair = (Bytes, Bytes)

  function Encode(p: Pair): string {
    QueryEscape(p.0) + "=" + QueryEscape(p.1)
  }

  function Join(pairs: seq<Pair>): string {
    if pairs == [] then ""
    else if |pairs| == 1 then Encode(pairs[0])
    else Encode(pairs[0]) + "&" + Join(pairs[1..])
  }

  // The first separator splits a text in only one way.
  lemma SplitUnique(a: string, x: string, b: string, y: string, c: char)
    requires c !in a && c !in b
    requires a + [c] + x == b + [c] + y
    ensures a == b && x == y
  {
    var l := a + [c] + x;
    var r := b + [c] + y;
    IndexOfAfter(a, c, x);
    IndexOfAfter(b, c, y);
    assert a == l[..|a|] && b == r[..|a|];
    assert x == l[|a| + 1..] && y == r[|a| + 1..];
  }

  lemma EncodeInjective(p: Pair, q: Pair)
    requires Encode(p) == Encode(q)
    ensures p == q
  {
    QueryEscapeClean(p.0);
    QueryEscapeClean(q.0);
    SplitUnique(QueryEscape(p.0), QueryEscape(p.1), QueryEscape(q.0), QueryEscape(q.1), '=');
    QueryEscapeInjective(p.0, q.0);
    QueryEscapeInjective(p.1, q.1);
  }

  lemma EncodeClean(p: Pair)
    ensures '&' !in Encode(p) && Encode(p) != ""
  {
    QueryEscapeClean(p.0);
    QueryEscapeClean(p.1);
  }

  lemma SeparatorIffMany(a: seq<Pair>)
    requires a != []
    ensures '&' in Join(a) <==> |a| > 1
    ensures Join(a) != ""
  {
    EncodeClean(a[0]);
    if |a| > 1 {
      assert Join(a)[|Encode(a[0])|] == '&';
    }
  }

  lemma {:induction false} JoinInjective(a: seq<Pair>, b: seq<Pair>)
    requires Join(a) == Join(b)
    ensures a == b
  {
    if a != [] { SeparatorIffMany(a); }
    if b != [] { SeparatorIffMany(b); }
    if a != [] && b != [] {
      EncodeClean(a[0]);
      EncodeClean(b[0]);
      if |a| > 1 {
        SplitUnique(Encode(a[0]), Join(a[1..]), Encode(b[0]), Join(b[1..]), '&');
        JoinInjective(a[1..], b[1..]);
      }
      EncodeInjective(a[0], b[0]);
      assert a == [a[0]] + a[1..] && b == [b[0]] + b[1..];
    }
  }

  // ---------- grouping and listing ----------

  type Values = map<Bytes, seq<Bytes>>

  // url.Values of a well-formed query: values per name in order of appearance.
  function Group(ps: seq<Pair>): Values {
    if ps == [] then map[]
    else
      var m := Group(ps[..|ps| - 1]);
      var (k, v) := ps[|ps| - 1];
      m[k := (if k in m then m[k] else []) + [v]]
  }

  // Some enumeration of the names; Go's map order is arbitrary as well.
  ghost function Enumerate(s: set<Bytes>): (r: seq<Bytes>)
    ensures multiset(r) == multiset(s)
  {
    if s == {} then []
    else
      var x :| x in s;
      [x] + Enumerate(s - {x})
  }

  function Tag(k: Bytes, vals: seq<Bytes>): seq<Pair> {
    seq(|vals|, i requires 0 <= i < |vals| => (k, vals[i]))
  }

  function Expand(keys: seq<Bytes>, values: Values): seq<Pair>
    requires forall k :: k in keys ==> k in values
  {
    if keys == [] then [] else Tag(keys[0], Sort(values[keys[0]])) + Expand(keys[1..], values)
  }

  ghost function SortedKeys(values: Values): (r: seq<Bytes>)
    ensures multiset(r) == multiset(values.Keys)
    ensures forall k :: k in r ==> k in values
  {
    SortSorts(Enumerate(values.Keys));
    var r := Sort(Enumerate(values.Keys));
    assert forall k :: k in r ==> k in multiset(r);
    r
  }

  ghost function Listing(values: Values): seq<Pair> {
    Expand(SortedKeys(values), values)
  }

  ghost function Canonical(values: Values): string {
    Join(Listing(values))
  }

  // ---------- the builder ----------

  method SortStrings(s: seq<Bytes>) returns (r: seq<Bytes>)
    ensures r == Sort(s)
  {
    r := [];
    var i := |s|;
    while i > 0
      invariant 0 <= i <= |s|
      invariant r == Sort(s[i..])
    {
      i := i - 1;
      assert s[i..][1..] == s[i + 1..];
      r := Insert(s[i], r);
    }
  }

  method CollectKeys(values: Values) returns (keys: seq<Bytes>)
    ensures keys == SortedKeys(values)
  {
    keys := [];
    var left := values.Keys;
    while left != {}
      invariant left <= values.Keys
      invariant multiset(keys) + multiset(left) == multiset(values.Keys)
      decreases left
    {
      var k :| k in left;
      left := left - {k};
      keys := keys + [k];
    }
    SortCanonical(keys, Enumerate(values.Keys));
    keys := SortStrings(keys);
  }

  method ListValues(k: Bytes, vals: seq<Bytes>) returns (pairs: seq<Pair>)
    ensures pairs == Tag(k, vals)
  {
    pairs := [];
    for j := 0 to |vals|
      invariant pairs == Tag(k, vals)[..j]
    {
      pairs := pairs + [(k, vals[j])];
    }
  }

  method ListPairs(keys: seq<Bytes>, values: Values) returns (pairs: seq<Pair>)
    requires forall k :: k in keys ==> k in values
    ensures pairs == Expand(keys, values)
  {
    pairs := [];
    ghost var rest := keys;
    for i := 0 to |keys|
      invariant rest == keys[i..] && forall k :: k in rest ==> k in values
      invariant pairs + Expand(rest, values) == Expand(keys, values)
    {
      var k := keys[i];
      assert k == rest[0] && k in rest;
      var vals := SortStrings(values[k]);
      var tagged := ListValues(k, vals);
      assert pairs + Expand(rest, values) == pairs + tagged + Expand(rest[1..], values);
      pairs := pairs + tagged;
      rest := rest[1..];
    }
  }

  // parsed: what url.ParseQuery makes of the raw query, None for an error.
  method BuildCanonicalQueryString(rawQuery: string, parsed: Option<Values>) returns (out: string)
    ensures rawQuery == "" ==> out == ""
    ensures rawQuery != "" && parsed.None? ==> out == rawQuery
    ensures rawQuery != "" && parsed.Some? ==> out == Canonical(parsed.value)
    ensures rawQuery != "" && parsed.Some? ==> ReadsAs(out, parsed.value)
  {
    if rawQuery == "" {
      return "";
    }
    if parsed.None? {
      return rawQuery;
    }
    var keys := CollectKeys(parsed.value);
    var pairs := ListPairs(keys, parsed.value);
    out := Join(pairs);
    CanonicalReadsAs(parsed.value);
  }

  // ---------- equal outputs, equal parameters ----------

  lemma {:induction false} GroupCounts(ps: seq<Pair>, k: Bytes, v: Bytes)
    ensures multiset(ps)[(k, v)] == if k in Group(ps) then multiset(Group(ps)[k])[v] else 0
    ensures k in Group(ps) <==> exists x :: (k, x) in ps
  {
    if ps != [] {
      var init := ps[..|ps| - 1];
      GroupCounts(init, k, v);
      assert ps == init + [ps[|ps| - 1]];
      if ps[|ps| - 1].0 == k {
        assert (k, ps[|ps| - 1].1) in ps;
      }
      if k in Group(init) {
        var x :| (k, x) in init;
        assert (k, x) in ps;
      }
    }
  }

  lemma TagCounts(k: Bytes, vals: seq<Bytes>, p: Pair)
    ensures multiset(Tag(k, vals))[p] == if p.0 == k then multiset(vals)[p.1] else 0
  {
    if vals != [] {
      TagCounts(k, vals[..|vals| - 1], p);
      assert Tag(k, vals) == Tag(k, vals[..|vals| - 1]) + [(k, vals[|vals| - 1])];
      assert vals == vals[..|vals| - 1] + [vals[|vals| - 1]];
    }
  }

  lemma {:induction false} ExpandCounts(keys: seq<Bytes>, values: Values, p: Pair)
    requires (forall k :: k in keys ==> k in values) && multiset(keys)[p.0] <= 1
    ensures multiset(Expand(keys, values))[p] == if p.0 in keys then multiset(values[p.0])[p.1] else 0
  {
    if keys != [] {
      var k, rest := keys[0], keys[1..];
      assert keys == [k] + rest;
      assert p.0 == k ==> multiset(rest)[k] == 0;
      ExpandCounts(rest, values, p);
      SortSorts(values[k]);
      TagCounts(k, Sort(values[k]), p);
    }
  }

  // The listing holds exactly the parameters, each as often as it was given.
  predicate Holds(pairs: seq<Pair>, values: Values, p: Pair) {
    multiset(pairs)[p] == if p.0 in values then multiset(values[p.0])[p.1] else 0
  }

  lemma ListingHolds(values: Values, p: Pair)
    ensures Holds(Listing(values), values, p)
  {
    var keys := SortedKeys(values);
    assert p.0 in keys <==> p.0 in multiset(keys);
    ExpandCounts(keys, values, p);
  }

  lemma ListingKeepsPairs(ps: seq<Pair>)
    ensures multiset(Listing(Group(ps))) == multiset(ps)
  {
    forall p: Pair ensures multiset(Listing(Group(ps)))[p] == multiset(ps)[p] {
      ListingHolds(Group(ps), p);
      GroupCounts(ps, p.0, p.1);
    }
  }

  lemma {:induction false} ExpandSame(keys: seq<Bytes>, a: Values, b: Values)
    requires forall k :: k in keys ==> k in a && k in b && multiset(a[k]) == multiset(b[k])
    ensures Expand(keys, a) == Expand(keys, b)
  {
    if keys != [] {
      SortCanonical(a[keys[0]], b[keys[0]]);
      ExpandSame(keys[1..], a, b);
    }
  }

  lemma SameGroups(ps: seq<Pair>, qs: seq<Pair>)
    requires multiset(ps) == multiset(qs)
    ensures Group(ps).Keys == Group(qs).Keys
    ensures forall k :: k in Group(ps) ==> multiset(Group(ps)[k]) == multiset(Group(qs)[k])
  {
    forall k: Bytes ensures k in Group(ps) <==> k in Group(qs) {
      GroupCounts(ps, k, []);
      GroupCounts(qs, k, []);
      forall x: Bytes ensures (k, x) in ps <==> (k, x) in qs {
        assert (k, x) in ps <==> (k, x) in multiset(ps);
        assert (k, x) in qs <==> (k, x) in multiset(qs);
      }
    }
    forall k | k in Group(ps) ensures multiset(Group(ps)[k]) == multiset(Group(qs)[k]) {
      forall v: Bytes ensures multiset(Group(ps)[k])[v] == multiset(Group(qs)[k])[v] {
        GroupCounts(ps, k, v);
        GroupCounts(qs, k, v);
      }
    }
  }

  // Two well-formed queries have the same canonical string exactly when they carry the
  // same parameters, in whatever order and however often.
  lemma CanonicalIffSameParameters(ps: seq<Pair>, qs: seq<Pair>)
    ensures Canonical(Group(ps)) == Canonical(Group(qs)) <==> multiset(ps) == multiset(qs)
  {
    if Canonical(Group(ps)) == Canonical(Group(qs)) {
      JoinInjective(Listing(Group(ps)), Listing(Group(qs)));
      ListingKeepsPairs(ps);
      ListingKeepsPairs(qs);
    }
    if multiset(ps) == multiset(qs) {
      SameGroups(ps, qs);
      var a, b := Group(ps), Group(qs);
      assert SortedKeys(a) == SortedKeys(b);
      ExpandSame(SortedKeys(a), a, b);
    }
  }

  // ---------- the order, written out ----------

  // The first is a prefix of the second, or smaller at the first byte where they differ.
  predicate Ascends(a: string, b: string) {
    a <= b || exists i :: 0 <= i < |a| && i < |b| && a[..i] == b[..i] && a[i] < b[i]
  }

  lemma SameStart(a: string, b: string)
    ensures forall i :: 0 < i <= |a| && i <= |b| && a[..i] == b[..i] ==> a[0] == b[0]
  {
    forall i | 0 < i <= |a| && i <= |b| && a[..i] == b[..i] ensures a[0] == b[0] {
      assert a[..i][0] == b[..i][0];
    }
  }

  lemma {:induction false} LeqMeans(a: string, b: string)
    ensures Leq(a, b) <==> Ascends(a, b)
  {
    SameStart(a, b);
    if a != "" && b != "" && a[0] == b[0] {
      LeqMeans(a[1..], b[1..]);
      assert a == [a[0]] + a[1..] && b == [b[0]] + b[1..];
      if i :| 0 <= i < |a[1..]| && i < |b[1..]| && a[1..][..i] == b[1..][..i] && a[1..][i] < b[1..][i] {
        assert a[..i + 1] == [a[0]] + a[1..][..i] && b[..i + 1] == [b[0]] + b[1..][..i];
        assert a[i + 1] < b[i + 1];
      }
      if i :| 0 <= i < |a| && i < |b| && a[..i] == b[..i] && a[i] < b[i] {
        assert i > 0;
        assert a[1..][..i - 1] == a[..i][1..] && b[1..][..i - 1] == b[..i][1..];
        assert a[1..][i - 1] < b[1..][i - 1];
      }
    } else if a != "" && b != "" {
      assert a[0] < b[0] ==> a[..0] == b[..0];
    }
  }

  // Names ascend, and values ascend under one name.
  predicate Ascending(pairs: seq<Pair>) {
    forall i, j :: 0 <= i < j < |pairs| ==>
      Ascends(pairs[i].0, pairs[j].0) && (pairs[i].0 == pairs[j].0 ==> Ascends(pairs[i].1, pairs[j].1))
  }

  lemma TagAscends(k: Bytes, vals: seq<Bytes>)
    requires Sorted(vals)
    ensures Ascending(Tag(k, vals))
  {
    var tagged := Tag(k, vals);
    forall i, j | 0 <= i < j < |tagged|
      ensures Ascends(tagged[i].0, tagged[j].0) && Ascends(tagged[i].1, tagged[j].1)
    {
      LeqMeans(vals[i], vals[j]);
    }
  }

  lemma {:induction false} ExpandNames(keys: seq<Bytes>, values: Values)
    requires forall k :: k in keys ==> k in values
    ensures forall p :: p in Expand(keys, values) ==> p.0 in keys
  {
    if keys != [] {
      ExpandNames(keys[1..], values);
    }
  }

  lemma AscendingConcat(first: seq<Pair>, rest: seq<Pair>)
    requires Ascending(first) && Ascending(rest)
    requires forall p, q :: p in first && q in rest ==> Ascends(p.0, q.0) && p.0 != q.0
    ensures Ascending(first + rest)
  {
    var all := first + rest;
    forall i, j | 0 <= i < j < |all|
      ensures Ascends(all[i].0, all[j].0) && (all[i].0 == all[j].0 ==> Ascends(all[i].1, all[j].1))
    {
      if i < |first| <= j {
        assert all[i] in first && all[j] in rest;
      }
    }
  }

  lemma {:induction false} ExpandAscends(keys: seq<Bytes>, values: Values)
    requires (forall k :: k in keys ==> k in values) && Sorted(keys)
    requires forall i, j :: 0 <= i < j < |keys| ==> keys[i] != keys[j]
    ensures Ascending(Expand(keys, values))
  {
    if keys != [] {
      var k := keys[0];
      var first, rest := Tag(k, Sort(values[k])), Expand(keys[1..], values);
      SortSorts(values[k]);
      TagAscends(k, Sort(values[k]));
      ExpandAscends(keys[1..], values);
      ExpandNames(keys[1..], values);
      forall p, q | p in first && q in rest ensures Ascends(p.0, q.0) && p.0 != q.0 {
        LaterName(keys, q.0);
        LeqMeans(k, q.0);
      }
      AscendingConcat(first, rest);
    }
  }

  lemma LaterName(keys: seq<Bytes>, name: Bytes)
    requires keys != [] && name in keys[1..] && Sorted(keys)
    requires forall i, j :: 0 <= i < j < |keys| ==> keys[i] != keys[j]
    ensures Leq(keys[0], name) && keys[0] != name
  {
    var m :| 0 <= m < |keys[1..]| && keys[1..][m] == name;
    assert keys[m + 1] == name;
  }

  lemma Repeated(keys: seq<Bytes>, i: nat, j: nat)
    requires i < j < |keys| && keys[i] == keys[j]
    ensures multiset(keys)[keys[i]] >= 2
  {
    assert keys == keys[..i] + [keys[i]] + keys[i + 1..j] + [keys[j]] + keys[j + 1..];
  }

  lemma NoRepeats(keys: seq<Bytes>, names: set<Bytes>)
    requires multiset(keys) == multiset(names)
    ensures forall i, j :: 0 <= i < j < |keys| ==> keys[i] != keys[j]
  {
    forall i, j | 0 <= i < j < |keys| && keys[i] == keys[j] ensures false {
      Repeated(keys, i, j);
    }
  }

  lemma ListingAscends(values: Values)
    ensures Ascending(Listing(values))
  {
    SortSorts(Enumerate(values.Keys));
    NoRepeats(SortedKeys(values), values.Keys);
    ExpandAscends(SortedKeys(values), values);
  }

  // ---------- reading a canonical string back ----------

  predicate Plain(c: char) {
    'A' <= c <= 'Z' || 'a' <= c <= 'z' || '0' <= c <= '9' || c in "-_.~"
  }

  function HexValue(c: char): Option<nat> {
    if '0' <= c <= '9' then Some(c as int - '0' as int)
    else if 'A' <= c <= 'F' then Some(c as int - 'A' as int + 10)
    else None
  }

  // '+' is a space, plain bytes stand for themselves, %XX with upper-case digits is any
  // other byte; nothing else may occur, so that each byte is written in one way only.
  function Unescape(s: string): Option<Bytes> {
    if s == "" then Some([])
    else if s[0] == '%' then
      if |s| < 3 || HexValue(s[1]).None? || HexValue(s[2]).None? then None
      else
        var c := (16 * HexValue(s[1]).value + HexValue(s[2]).value) as char;
        if c == ' ' || Plain(c) then None
        else match Unescape(s[3..])
          case None => None
          case Some(rest) => Some([c] + rest)
    else if s[0] != '+' && !Plain(s[0]) then None
    else match Unescape(s[1..])
      case None => None
      case Some(rest) => Some([if s[0] == '+' then ' ' else s[0]] + rest)
  }

  // One name and one value around the first '='.
  function ReadPair(s: string): Option<Pair> {
    match IndexOf(s, '=')
    case None => None
    case Some(e) =>
      var name, value := Unescape(s[..e]), Unescape(s[e + 1..]);
      if name.None? || value.None? then None else Some((name.value, value.value))
  }

  // Pairs between '&' and '&'.
  function ReadPairs(s: string): Option<seq<Pair>>
    decreases |s|
  {
    match IndexOf(s, '&')
    case None =>
      (match ReadPair(s) case None => None case Some(p) => Some([p]))
    case Some(e) =>
      var p, rest := ReadPair(s[..e]), ReadPairs(s[e + 1..]);
      if p.None? || rest.None? then None else Some([p.value] + rest.value)
  }

  function ReadQuery(s: string): Option<seq<Pair>> {
    if s == "" then Some([]) else ReadPairs(s)
  }

  lemma UnescapeByte(c: Byte, rest: string)
    ensures Unescape(EscapeByte(c) + rest) ==
      match Unescape(rest) case None => None case Some(bytes) => Some([c] + bytes)
  {
    var s := EscapeByte(c) + rest;
    assert s[|EscapeByte(c)|..] == rest;
    if |EscapeByte(c)| == 3 {
      assert s[1] == HexDigit(c as int / 16) && s[2] == HexDigit(c as int % 16);
    }
  }

  lemma {:induction false} UnescapeEscaped(s: Bytes)
    ensures Unescape(QueryEscape(s)) == Some(s)
  {
    if s != [] {
      UnescapeByte(s[0], QueryEscape(s[1..]));
      UnescapeEscaped(s[1..]);
      assert s == [s[0]] + s[1..];
    }
  }

  lemma ReadEncoded(p: Pair)
    ensures ReadPair(Encode(p)) == Some(p)
  {
    var s := Encode(p);
    QueryEscapeClean(p.0);
    assert s == QueryEscape(p.0) + ['='] + QueryEscape(p.1);
    IndexOfAfter(QueryEscape(p.0), '=', QueryEscape(p.1));
    assert s[..|QueryEscape(p.0)|] == QueryEscape(p.0) && s[|QueryEscape(p.0)| + 1..] == QueryEscape(p.1);
    UnescapeEscaped(p.0);
    UnescapeEscaped(p.1);
  }

  lemma ReadNext(p: Pair, rest: string)
    ensures ReadPairs(Encode(p) + "&" + rest) ==
      match ReadPairs(rest) case None => None case Some(pairs) => Some([p] + pairs)
  {
    var first := Encode(p);
    var s := first + "&" + rest;
    EncodeClean(p);
    ReadEncoded(p);
    assert s == first + ['&'] + rest;
    IndexOfAfter(first, '&', rest);
    assert s[..|first|] == first && s[|first| + 1..] == rest;
  }

  lemma {:induction false} ReadJoined(pairs: seq<Pair>)
    ensures ReadQuery(Join(pairs)) == Some(pairs)
  {
    if |pairs| == 1 {
      EncodeClean(pairs[0]);
      ReadEncoded(pairs[0]);
      assert pairs == [pairs[0]];
    } else if |pairs| > 1 {
      SeparatorIffMany(pairs[1..]);
      ReadJoined(pairs[1..]);
      ReadNext(pairs[0], Join(pairs[1..]));
      assert pairs == [pairs[0]] + pairs[1..];
    }
  }

  // The text is an ascending listing of the parameters.
  ghost predicate ReadsAs(text: string, values: Values) {
    var pairs := ReadQuery(text);
    pairs.Some? && Ascending(pairs.value) && forall p :: Holds(pairs.value, values, p)
  }

  lemma CanonicalReadsAs(values: Values)
    ensures ReadsAs(Canonical(values), values)
  {
    ReadJoined(Listing(values));
    ListingAscends(values);
    forall p ensures Holds(Listing(values), values, p) {
      ListingHolds(values, p);
    }
  }

  // A canonical string reads back as exactly the given parameters, names ascending and
  // values ascending under one name.
  lemma CanonicalReadsBack(ps: seq<Pair>)
    ensures ReadQuery(Canonical(Group(ps))).Some?
    ensures var pairs := ReadQuery(Canonical(Group(ps))).value;
      Ascending(pairs) && multiset(pairs) == multiset(ps)
  {
    ReadJoined(Listing(Group(ps)));
    ListingAscends(Group(ps));
    ListingKeepsPairs(ps);
  }
}
