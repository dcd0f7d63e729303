/** References into recorded responses (tools/quality-host/http_scenarios.py: resolve), against
    sections 3 and 4 of RFC 6901. Any Python exception is Failed. */
module HttpScenarios {
  import opened Json

  datatype Result<+T> = Ok(value: T) | Failed

  const REFERENCE := "$response"

  // ---------------------------------------------------------------- strings

  /** str.replace() of a two-character pattern by one character: leftmost, not overlapping. */
  function Replace(s: string, first: char, second: char, instead: char): string {
    if |s| >= 2 && s[0] == first && s[1] == second then [instead] + Replace(s[2..], first, second, instead)
    else if s == "" then ""
    else [s[0]] + Replace(s[1..], first, second, instead)
  }

  /** part.replace('~1', '/').replace('~0', '~') */
  function Unescaped(token: string): string { Replace(Replace(token, '~', '1', '/'), '~', '0', '~') }

  /** Section 3 of RFC 6901: "~" is written "~0" and "/" is written "~1". */
  function Escaped(name: string): string {
    if name == "" then ""
    else (if name[0] == '~' then "~0" else if name[0] == '/' then "~1" else [name[0]]) + Escaped(name[1..])
  }

  /** Every "~" is followed by "0" or "1". */
  predicate ValidEscapes(token: string) {
    token == "" || if token[0] == '~' then |token| >= 2 && token[1] in "01" && ValidEscapes(token[2..]) else ValidEscapes(token[1..])
  }

  /** Section 4 of RFC 6901 for a token with valid escapes. */
  function Decoded(token: string): string
    requires ValidEscapes(token)
  {
    if token == "" then ""
    else if token[0] == '~' then [if token[1] == '0' then '~' else '/'] + Decoded(token[2..])
    else [token[0]] + Decoded(token[1..])
  }

  lemma {:induction false} ReplacedFirst(s: string, c: char, first: char, second: char, instead: char)
    requires c != first
    ensures Replace([c] + s, first, second, instead) == [c] + Replace(s, first, second, instead)
  {
    assert ([c] + s)[1..] == s;
  }

  /** Replacing "~1" and then "~0" decodes every token with valid escapes. */
  lemma {:induction false} UnescapedIsDecoded(token: string)
    requires ValidEscapes(token)
    ensures Unescaped(token) == Decoded(token)
  {
    if token != "" {
      if token[0] == '~' {
        var rest := token[2..];
        UnescapedIsDecoded(rest);
        var once := Replace(rest, '~', '1', '/');
        if token[1] == '1' {
          ReplacedFirst(once, '/', '~', '0', '~');
        } else {
          assert token[1..] == ['0'] + rest;
          ReplacedFirst(rest, '0', '~', '1', '/');
          assert Replace(token, '~', '1', '/') == ['~'] + (['0'] + once);
          assert (['~'] + (['0'] + once))[2..] == once;
        }
      } else {
        UnescapedIsDecoded(token[1..]);
        ReplacedFirst(Replace(token[1..], '~', '1', '/'), token[0], '~', '0', '~');
      }
    }
  }

  lemma {:induction false} EscapedDecodes(name: string)
    ensures ValidEscapes(Escaped(name)) && Decoded(Escaped(name)) == name && '/' !in Escaped(name)
  {
    if name != "" {
      EscapedDecodes(name[1..]);
      var rest := Escaped(name[1..]);
      if name[0] == '~' { assert ("~0" + rest)[2..] == rest; }
      else if name[0] == '/' { assert ("~1" + rest)[2..] == rest; }
      else { assert ([name[0]] + rest)[1..] == rest; }
    }
  }

  /** The two replacements invert the escaping of every name. */
  lemma UnescapeInvertsEscape(name: string)
    ensures Unescaped(Escaped(name)) == name
  {
    EscapedDecodes(name);
    UnescapedIsDecoded(Escaped(name));
  }

  /** In the other order they do not: the name "~1" would be read as "/". */
  lemma OrderOfReplacementsMatters(name: string)
    requires name == ['~', '1']
    ensures Replace(Replace(Escaped(name), '~', '0', '~'), '~', '1', '/') == "/"
  {
    assert name[1..] == ['1'] && ['1'][1..] == "";
    assert Escaped(name) == ['~', '0', '1'];
    assert ['~', '0', '1'][2..] == ['1'];
    assert Replace(['1'], '~', '0', '~') == ['1'];
    assert Replace(['~', '0', '1'], '~', '0', '~') == ['~', '1'];
    assert ['~', '1'][2..] == "";
  }

  /** str.split() on one character: always at least one part. */
  function Split(s: string, at: char): (parts: seq<string>)
    ensures |parts| >= 1
  {
    if s == "" then [""]
    else
      var rest := Split(s[1..], at);
      if s[0] == at then [""] + rest else [[s[0]] + rest[0]] + rest[1..]
  }

  /** str.split('#', 1): the text before and after the first mark. */
  function SplitOnce(s: string, at: char): Result<(string, string)> {
    if s == "" then Failed
    else if s[0] == at then Ok(("", s[1..]))
    else
      var rest := SplitOnce(s[1..], at);
      if rest.Ok? then Ok(([s[0]] + rest.value.0, rest.value.1)) else Failed
  }

  // ---------------------------------------------------------------- int()

  predicate Space(c: char) {
    '\t' <= c <= '\r' || '\U{1C}' <= c <= '\U{20}' ||
    c in {'\U{85}', '\U{A0}', '\U{1680}', '\U{2028}', '\U{2029}', '\U{202F}', '\U{205F}', '\U{3000}'} || '\U{2000}' <= c <= '\U{200A}'
  }

  function TrimLeft(s: string): string { if s != "" && Space(s[0]) then TrimLeft(s[1..]) else s }

  function TrimRight(s: string): string { if s != "" && Space(s[|s| - 1]) then TrimRight(s[..|s| - 1]) else s }

  /** ASCII digits, with single underscores between them allowed. */
  function Digits(s: string): Result<nat> {
    if s == "" || !('0' <= s[|s| - 1] <= '9') then Failed
    else
      var digit := (s[|s| - 1] as int) - 48;
      if |s| == 1 then Ok(digit)
      else
        var front := s[..|s| - 1];
        var more := Digits(if front[|front| - 1] == '_' then front[..|front| - 1] else front);
        if more.Ok? then Ok(10 * more.value + digit) else Failed
  }

  function PythonInt(s: string): Result<int> {
    var t := TrimRight(TrimLeft(s));
    if t != "" && t[0] in "+-" then
      var n := Digits(t[1..]);
      if n.Failed? then Failed
      else
        var value: int := n.value;
        Ok(if t[0] == '-' then -value else value)
    else
      var n := Digits(t);
      if n.Failed? then Failed else Ok(n.value)
  }

  // ---------------------------------------------------------------- following a pointer

  /** One step: a list is indexed by int(key), negative indices from the end; a dictionary by the key. */
  function Follow(v: Value, token: string): Result<Value> {
    match v
    case Arr(items) =>
      var i := PythonInt(Unescaped(token));
      if i.Failed? then Failed
      else if 0 <= i.value < |items| then Ok(items[i.value])
      else if -|items| <= i.value < 0 then Ok(items[|items| + i.value])
      else Failed
    case Obj(fields) => if Unescaped(token) in fields then Ok(fields[Unescaped(token)]) else Failed
    case _ => Failed
  }

  function Walk(v: Value, tokens: seq<string>): Result<Value>
    decreases |tokens|
  {
    if tokens == [] then Ok(v)
    else
      var next := Follow(v, tokens[0]);
      if next.Failed? then Failed else Walk(next.value, tokens[1..])
  }

  function FromReference(reference: string, responses: map<string, Value>): Result<Value> {
    var parts := SplitOnce(reference, '#');
    if parts.Failed? || parts.value.0 !in responses then Failed
    else
      var pointer := parts.value.1;
      if pointer != "" && pointer[0] != '/' then Failed else Walk(responses[parts.value.0], Split(pointer, '/')[1..])
  }

  /** resolve(): references anywhere in a value are replaced by what they name. */
  function Resolve(value: Value, responses: map<string, Value>): Result<Value>
    decreases value, 1
  {
    match value
    case Obj(fields) =>
      if REFERENCE in fields then
        if fields.Keys != {REFERENCE} || !fields[REFERENCE].Str? then Failed else FromReference(fields[REFERENCE].s, responses)
      else if forall k :: k in fields ==> ResolveMember(value, k, responses).Ok? then
        Ok(Obj(map k | k in fields :: ResolveMember(value, k, responses).value))
      else Failed
    case Arr(items) =>
      if forall i :: 0 <= i < |items| ==> ResolveItem(value, i, responses).Ok? then
        Ok(Arr(seq(|items|, i requires 0 <= i < |items| && ResolveItem(value, i, responses).Ok? => ResolveItem(value, i, responses).value)))
      else Failed
    case _ => Ok(value)
  }

  function ResolveMember(value: Value, k: string, responses: map<string, Value>): Result<Value>
    requires value.Obj? && k in value.fields
    decreases value, 0
  {
    Resolve(value.fields[k], responses)
  }

  function ResolveItem(value: Value, i: nat, responses: map<string, Value>): Result<Value>
    requires value.Arr? && i < |value.items|
    decreases value, 0
  {
    Resolve(value.items[i], responses)
  }

  /** The loop over the parts of a pointer. */
  method FollowPointer(v: Value, pointer: string) returns (found: Result<Value>)
    ensures found == Walk(v, Split(pointer, '/')[1..])
  {
    var parts := Split(pointer, '/')[1..];
    var current := v;
    for i := 0 to |parts|
      invariant Walk(v, parts) == Walk(current, parts[i..])
    {
      var next := Follow(current, parts[i]);
      if next.Failed? { return Failed; }
      assert parts[i..][0] == parts[i] && parts[i..][1..] == parts[i + 1..];
      current := next.value;
    }
    assert parts[|parts|..] == [];
    found := Ok(current);
  }

  // ---------------------------------------------------------------- a reference to every existing path

  datatype Place = Member(name: string) | Index(i: nat)

  /** The value at a path that exists. */
  function At(v: Value, path: seq<Place>): Result<Value>
    decreases |path|
  {
    if path == [] then Ok(v)
    else match path[0]
      case Member(name) => if v.Obj? && name in v.fields then At(v.fields[name], path[1..]) else Failed
      case Index(i) => if v.Arr? && i < |v.items| then At(v.items[i], path[1..]) else Failed
  }

  function Token(p: Place): string { match p case Member(name) => Escaped(name) case Index(i) => Decimal(i) }

  function Pointer(path: seq<Place>): string { if path == [] then "" else "/" + Token(path[0]) + Pointer(path[1..]) }

  predicate AllDigits(s: string) { forall c :: c in s ==> '0' <= c <= '9' }

  lemma {:induction false} DecimalDigits(n: nat)
    ensures AllDigits(Decimal(n))
  {
    if n >= 10 { DecimalDigits(n / 10); }
  }

  lemma {:induction false} DigitsOfDecimal(n: nat)
    ensures Digits(Decimal(n)) == Ok(n)
  {
    if n >= 10 {
      DigitsOfDecimal(n / 10);
      DecimalDigits(n / 10);
      OneMoreDigit(Decimal(n / 10), n / 10, n % 10);
    }
  }

  lemma OneMoreDigit(front: string, n: nat, d: nat)
    requires front != "" && AllDigits(front) && Digits(front) == Ok(n) && d < 10
    ensures Digits(front + [Digit(d)]) == Ok(10 * n + d)
  {
    var s := front + [Digit(d)];
    assert s[..|s| - 1] == front && front[|front| - 1] in front;
  }

  /** int() reads back what str() printed. */
  lemma IntOfDecimal(n: nat)
    ensures PythonInt(Decimal(n)) == Ok(n)
  {
    DecimalDigits(n);
    DigitsOfDecimal(n);
    var s := Decimal(n);
    assert s[0] in s && s[|s| - 1] in s;
  }

  lemma {:induction false} DigitsAreNotEscaped(s: string)
    requires AllDigits(s)
    ensures Escaped(s) == s
  {
    if s != "" {
      assert s[0] in s;
      assert forall c :: c in s[1..] ==> c in s;
      DigitsAreNotEscaped(s[1..]);
    }
  }

  lemma TokenLeads(v: Value, p: Place)
    requires At(v, [p]).Ok?
    ensures Follow(v, Token(p)) == At(v, [p])
  {
    match p
    case Member(name) => UnescapeInvertsEscape(name);
    case Index(i) =>
      DecimalDigits(i);
      DigitsAreNotEscaped(Decimal(i));
      UnescapeInvertsEscape(Decimal(i));
      IntOfDecimal(i);
  }

  lemma {:induction false} SplitPart(part: string, rest: string, at: char)
    requires at !in part
    ensures Split(part + [at] + rest, at) == [part] + Split(rest, at)
  {
    if part == "" {
      assert part + [at] + rest == [at] + rest;
    } else {
      SplitPart(part[1..], rest, at);
      assert (part + [at] + rest)[1..] == part[1..] + [at] + rest;
      assert [part[0]] + part[1..] == part;
    }
  }

  lemma {:induction false} SplitLast(part: string, at: char)
    requires at !in part
    ensures Split(part, at) == [part]
  {
    if part != "" {
      SplitLast(part[1..], at);
      assert [part[0]] + part[1..] == part;
    }
  }

  lemma TokenHasNoSlash(p: Place)
    ensures '/' !in Token(p)
  {
    match p
    case Member(name) => EscapedDecodes(name);
    case Index(i) => DecimalDigits(i);
  }

  function Tokens(path: seq<Place>): seq<string> { if path == [] then [] else [Token(path[0])] + Tokens(path[1..]) }

  lemma {:induction false} PointerSplits(path: seq<Place>)
    ensures Split(Pointer(path), '/')[1..] == Tokens(path)
  {
    if path != [] {
      var t, rest := Token(path[0]), path[1..];
      TokenHasNoSlash(path[0]);
      PointerSplits(rest);
      assert Pointer(path)[1..] == t + Pointer(rest);
      if rest == [] {
        SplitLast(t, '/');
        assert t + Pointer(rest) == t;
      } else {
        assert Pointer(rest)[0] == '/';
        assert t + Pointer(rest) == t + ['/'] + Pointer(rest)[1..];
        SplitPart(t, Pointer(rest)[1..], '/');
        assert Split(Pointer(rest), '/')[1..] == Split(Pointer(rest)[1..], '/');
      }
    }
  }

  lemma {:induction false} WalkReaches(v: Value, path: seq<Place>)
    requires At(v, path).Ok?
    ensures Walk(v, Tokens(path)) == At(v, path)
    decreases |path|
  {
    if path != [] {
      var next := if path[0].Member? then v.fields[path[0].name] else v.items[path[0].i];
      assert At(v, [path[0]]) == Ok(next);
      TokenLeads(v, path[0]);
      WalkReaches(next, path[1..]);
    }
  }

  lemma {:induction false} SplitOnceAt(name: string, rest: string, at: char)
    requires at !in name
    ensures SplitOnce(name + [at] + rest, at) == Ok((name, rest))
  {
    if name == "" {
      assert name + [at] + rest == [at] + rest;
    } else {
      SplitOnceAt(name[1..], rest, at);
      assert (name + [at] + rest)[1..] == name[1..] + [at] + rest;
      assert [name[0]] + name[1..] == name;
    }
  }

  /** A reference built from any path that exists in a recorded response resolves to exactly the value there. */
  lemma ReferenceResolves(name: string, path: seq<Place>, responses: map<string, Value>)
    requires '#' !in name && name in responses && At(responses[name], path).Ok?
    ensures Resolve(Obj(map[REFERENCE := Str(name + ['#'] + Pointer(path))]), responses) == At(responses[name], path)
  {
    SplitOnceAt(name, Pointer(path), '#');
    PointerSplits(path);
    WalkReaches(responses[name], path);
    var fields := map[REFERENCE := Str(name + ['#'] + Pointer(path))];
    assert fields.Keys == {REFERENCE};
  }

  // ---------------------------------------------------------------- values without references

  predicate Plain(v: Value)
    decreases v, 1
  {
    match v
    case Obj(fields) => REFERENCE !in fields && forall k :: k in fields ==> PlainMember(v, k)
    case Arr(items) => forall i :: 0 <= i < |items| ==> PlainItem(v, i)
    case _ => true
  }

  predicate PlainMember(v: Value, k: string)
    requires v.Obj? && k in v.fields
    decreases v, 0
  {
    Plain(v.fields[k])
  }

  predicate PlainItem(v: Value, i: nat)
    requires v.Arr? && i < |v.items|
    decreases v, 0
  {
    Plain(v.items[i])
  }

  /** A value without references resolves to itself. */
  lemma {:induction false} PlainStays(v: Value, responses: map<string, Value>)
    requires Plain(v)
    ensures Resolve(v, responses) == Ok(v)
  {
    match v
    case Obj(fields) =>
      forall k | k in fields ensures ResolveMember(v, k, responses) == Ok(fields[k]) {
        assert PlainMember(v, k);
        PlainStays(fields[k], responses);
      }
      assert (map k | k in fields :: ResolveMember(v, k, responses).value) == fields;
    case Arr(items) =>
      forall i | 0 <= i < |items| ensures ResolveItem(v, i, responses) == Ok(items[i]) {
        assert PlainItem(v, i);
        PlainStays(items[i], responses);
      }
      assert forall i :: 0 <= i < |items| ==> ResolveItem(v, i, responses).Ok?;
      assert Resolve(v, responses).Ok?;
      var all := Resolve(v, responses).value.items;
      forall i | 0 <= i < |items| ensures all[i] == items[i] { assert all[i] == ResolveItem(v, i, responses).value; }
      assert all == items;
    case _ =>
  }

  // ---------------------------------------------------------------- references inside other values

  predicate IsReference(v: Value) { v.Obj? && REFERENCE in v.fields }

  /** The path leads into the value without passing through a reference. */
  predicate Visible(v: Value, path: seq<Place>)
    decreases |path|
  {
    path == [] ||
    match path[0]
    case Member(name) => v.Obj? && !IsReference(v) && name in v.fields && Visible(v.fields[name], path[1..])
    case Index(i) => v.Arr? && i < |v.items| && Visible(v.items[i], path[1..])
  }

  /** What is not a reference keeps its kind, its members and its length. */
  lemma ResolvedShape(v: Value, responses: map<string, Value>)
    requires Resolve(v, responses).Ok? && !IsReference(v)
    ensures var w := Resolve(v, responses).value;
      (v.Obj? ==>
        w.Obj? && w.fields.Keys == v.fields.Keys && forall k :: k in v.fields ==> Resolve(v.fields[k], responses) == Ok(w.fields[k])) &&
      (v.Arr? ==>
        w.Arr? && |w.items| == |v.items| && forall i :: 0 <= i < |v.items| ==> Resolve(v.items[i], responses) == Ok(w.items[i])) &&
      (!v.Obj? && !v.Arr? ==> w == v)
  {
    var w := Resolve(v, responses).value;
    if v.Obj? {
      forall k | k in v.fields ensures Resolve(v.fields[k], responses) == Ok(w.fields[k]) {
        assert ResolveMember(v, k, responses).Ok? && w.fields[k] == ResolveMember(v, k, responses).value;
      }
    } else if v.Arr? {
      forall i | 0 <= i < |v.items| ensures Resolve(v.items[i], responses) == Ok(w.items[i]) {
        assert ResolveItem(v, i, responses).Ok? && w.items[i] == ResolveItem(v, i, responses).value;
      }
    }
  }

  /** However deep a value lies in objects and lists, what resolving the whole gives there is what resolving it alone gives. */
  lemma {:induction false} ResolvesInside(v: Value, path: seq<Place>, responses: map<string, Value>)
    requires Visible(v, path) && Resolve(v, responses).Ok?
    ensures At(v, path).Ok? && Resolve(At(v, path).value, responses).Ok?
    ensures At(Resolve(v, responses).value, path) == Resolve(At(v, path).value, responses)
    decreases |path|
  {
    if path != [] {
      ResolvedShape(v, responses);
      match path[0]
      case Member(name) => ResolvesInside(v.fields[name], path[1..], responses);
      case Index(i) => ResolvesInside(v.items[i], path[1..], responses);
    }
  }

  /** A visible reference that does not resolve. */
  ghost predicate Dangling(v: Value, path: seq<Place>, responses: map<string, Value>) {
    Visible(v, path) && At(v, path).Ok? && IsReference(At(v, path).value) && Resolve(At(v, path).value, responses).Failed?
  }

  lemma {:induction false} FailureDangles(v: Value, responses: map<string, Value>) returns (path: seq<Place>)
    requires Resolve(v, responses).Failed?
    ensures Dangling(v, path, responses)
  {
    path := [];
    if !IsReference(v) {
      match v
      case Obj(fields) =>
        var k :| k in fields && ResolveMember(v, k, responses).Failed?;
        var rest := FailureDangles(fields[k], responses);
        path := [Member(k)] + rest;
        assert path[1..] == rest;
      case Arr(items) =>
        var i :| 0 <= i < |items| && ResolveItem(v, i, responses).Failed?;
        var rest := FailureDangles(items[i], responses);
        path := [Index(i)] + rest;
        assert path[1..] == rest;
      case _ =>
    }
  }

  /** A value resolves exactly when every reference in it does. */
  lemma ResolvesExactly(v: Value, responses: map<string, Value>)
    ensures Resolve(v, responses).Ok? <==> forall path: seq<Place> :: !Dangling(v, path, responses)
  {
    if Resolve(v, responses).Ok? {
      forall path: seq<Place> | Visible(v, path) ensures !Dangling(v, path, responses) { ResolvesInside(v, path, responses); }
    } else {
      var path := FailureDangles(v, responses);
    }
  }

  lemma {:induction false} SplitOnceExactly(s: string, at: char)
    ensures SplitOnce(s, at).Ok? <==> at in s
    ensures SplitOnce(s, at).Ok? ==>
      at !in SplitOnce(s, at).value.0 && s == SplitOnce(s, at).value.0 + [at] + SplitOnce(s, at).value.1
  {
    if s != "" && s[0] != at {
      SplitOnceExactly(s[1..], at);
      assert s == [s[0]] + s[1..];
      if SplitOnce(s[1..], at).Ok? {
        var rest := SplitOnce(s[1..], at).value;
        assert s == [s[0]] + (rest.0 + [at] + rest.1);
      }
    }
  }

  /** The reference is the name of a recorded response, a mark, and a pointer from its root to a value in it. */
  predicate Names(reference: string, name: string, pointer: string, responses: map<string, Value>) {
    reference == name + ['#'] + pointer && '#' !in name && name in responses && (pointer == "" || pointer[0] == '/') &&
    Walk(responses[name], Split(pointer, '/')[1..]).Ok?
  }

  /** A reference resolves exactly when it is alone in its object and names a value of a recorded response, and then to that value. */
  lemma ReferenceExactly(fields: map<string, Value>, responses: map<string, Value>)
    requires REFERENCE in fields
    ensures Resolve(Obj(fields), responses).Ok? <==>
      fields.Keys == {"$response"} && fields["$response"].Str? &&
      exists name, pointer :: Names(fields["$response"].s, name, pointer, responses)
    ensures forall name, pointer ::
      fields.Keys == {"$response"} && fields["$response"].Str? && Names(fields["$response"].s, name, pointer, responses) ==>
        Resolve(Obj(fields), responses) == Walk(responses[name], Split(pointer, '/')[1..])
  {
    if fields.Keys == {REFERENCE} && fields[REFERENCE].Str? {
      var s := fields[REFERENCE].s;
      SplitOnceExactly(s, '#');
      forall name, pointer | Names(s, name, pointer, responses)
        ensures Resolve(Obj(fields), responses) == Walk(responses[name], Split(pointer, '/')[1..])
      {
        SplitOnceAt(name, pointer, '#');
      }
      if Resolve(Obj(fields), responses).Ok? {
        var parts := SplitOnce(s, '#').value;
        assert Names(s, parts.0, parts.1, responses);
      }
    }
  }

  // ---------------------------------------------------------------- where it accepts more than the standard

  /** An array index by section 4: digits without a leading zero. */
  predicate CanonicalIndex(s: string) { s != "" && AllDigits(s) && (s[0] == '0' ==> |s| == 1) }

  /** Evaluation by the standard: wrong escapes and other indices are errors. */
  function Strict(v: Value, tokens: seq<string>): Result<Value>
    decreases |tokens|
  {
    if tokens == [] then Ok(v)
    else if !ValidEscapes(tokens[0]) then Failed
    else
      var key := Decoded(tokens[0]);
      match v
      case Arr(items) =>
        if CanonicalIndex(key) && Digits(key).Ok? && Digits(key).value < |items| then Strict(items[Digits(key).value], tokens[1..]) else Failed
      case Obj(fields) => if key in fields then Strict(fields[key], tokens[1..]) else Failed
      case _ => Failed
  }

  /** Each token is well written for the value it is applied to. */
  predicate WellWritten(v: Value, tokens: seq<string>)
    decreases |tokens|
  {
    tokens == [] ||
    (ValidEscapes(tokens[0]) && (v.Arr? ==> CanonicalIndex(Decoded(tokens[0]))) &&
     (Follow(v, tokens[0]).Ok? ==> WellWritten(Follow(v, tokens[0]).value, tokens[1..])))
  }

  lemma {:induction false} IntOfDigits(s: string)
    requires s != "" && AllDigits(s)
    ensures Digits(s).Ok? && PythonInt(s) == Ok(Digits(s).value)
  {
    DigitsParse(s);
    assert s[0] in s && s[|s| - 1] in s;
  }

  lemma {:induction false} DigitsParse(s: string)
    requires s != "" && AllDigits(s)
    ensures Digits(s).Ok?
  {
    assert s[|s| - 1] in s;
    if |s| > 1 {
      var front := s[..|s| - 1];
      assert forall c :: c in front ==> c in s;
      assert front[|front| - 1] in front;
      DigitsParse(front);
    }
  }

  /** Whatever the standard evaluates is resolved to the same value; beyond it, a pointer resolves only
      because some token is not well written. */
  lemma {:induction false} StricterExactly(v: Value, tokens: seq<string>)
    requires Walk(v, tokens).Ok? || Strict(v, tokens).Ok?
    ensures Strict(v, tokens).Ok? ==> Walk(v, tokens) == Strict(v, tokens)
    ensures Strict(v, tokens).Ok? <==> WellWritten(v, tokens)
    decreases |tokens|
  {
    if tokens != [] && ValidEscapes(tokens[0]) {
      var key := Decoded(tokens[0]);
      UnescapedIsDecoded(tokens[0]);
      if v.Arr? && CanonicalIndex(key) { IntOfDigits(key); }
      if Follow(v, tokens[0]).Ok? && (v.Arr? ==> CanonicalIndex(key)) {
        StricterExactly(Follow(v, tokens[0]).value, tokens[1..]);
      }
    }
  }
}
