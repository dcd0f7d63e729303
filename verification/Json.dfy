/** JSON values and the length of their text. A number that is not an integer is kept as printed. */
module Json {
  import opened Totals

  datatype Value =
    | Null
    | Bool(b: bool)
    | Int(n: int)
    | Number(text: string)
    | Str(s: string)
    | Arr(items: seq<Value>)
    | Obj(fields: map<string, Value>)

  function Digit(d: nat): char
    requires d < 10
  {
    ['0', '1', '2', '3', '4', '5', '6', '7', '8', '9'][d]
  }

  function Decimal(n: nat): (text: string)
    ensures |text| > 0
  {
    if n < 10 then [Digit(n)] else Decimal(n / 10) + [Digit(n % 10)]
  }

  /** len(str(n)) */
  function IntWidth(n: int): nat {
    if n < 0 then 1 + |Decimal(-n)| else |Decimal(n)|
  }

  /** The width of one character inside a string literal that is kept within ASCII. */
  function CharWidth(c: char): nat {
    if c == '\"' || c == '\\' || c == '\n' || c == '\r' || c == '\t' || c == '\U{8}' || c == '\U{C}' then 2
    else if ' ' <= c <= '~' then 1
    else if c as int < 0x1_0000 then 6
    else 12
  }

  function TextWidth(s: string): nat {
    if s == "" then 0 else CharWidth(s[0]) + TextWidth(s[1..])
  }

  function QuotedWidth(s: string): nat { 2 + TextWidth(s) }

  /** Length of the encoded value; `sep` is the width of "," and of ":" (1 when compact, 2 by default). */
  ghost function Width(v: Value, sep: nat): nat
    requires sep <= 2
    decreases v
  {
    match v
    case Null => 4
    case Bool(b) => if b then 4 else 5
    case Int(n) => IntWidth(n)
    case Number(text) => |text|
    case Str(s) => QuotedWidth(s)
    case Arr(items) => if items == [] then 2 else 2 - sep + ItemsWidth(v, |items|, sep)
    case Obj(fields) => if fields == map[] then 2 else 2 - sep + Total(Entries(v, sep))
  }

  ghost function ItemsWidth(v: Value, n: nat, sep: nat): nat
    requires v.Arr? && n <= |v.items| && sep <= 2
    decreases v, n
  {
    if n == 0 then 0 else ItemsWidth(v, n - 1, sep) + Width(v.items[n - 1], sep) + sep
  }

  /** Each member's text with its colon and one comma. */
  ghost function Entries(v: Value, sep: nat): map<string, nat>
    requires v.Obj? && sep <= 2
    decreases v, 1
  {
    map k | k in v.fields :: EntryWidth(v, k, sep)
  }

  ghost function EntryWidth(v: Value, k: string, sep: nat): nat
    requires v.Obj? && k in v.fields && sep <= 2
    decreases v, 0
  {
    QuotedWidth(k) + 2 * sep + Width(v.fields[k], sep)
  }

  predicate Letters(s: string) { forall i :: 0 <= i < |s| ==> 'a' <= s[i] <= 'z' }

  /** A text of lower-case letters encodes as itself between quotes. */
  lemma {:induction false} LettersWidth(s: string, sep: nat)
    requires Letters(s) && sep <= 2
    ensures Width(Str(s), sep) == 2 + |s|
  {
    if s != "" { LettersWidth(s[1..], sep); }
  }

  // ---------------------------------------------------------------- how a member changes the width of an object

  lemma EntriesReplaced(fields: map<string, Value>, k: string, v: Value, sep: nat)
    requires k in fields && sep <= 2
    ensures Entries(Obj(fields[k := v]), sep) == Entries(Obj(fields), sep)[k := QuotedWidth(k) + 2 * sep + Width(v, sep)]
  {
    var before, after := Obj(fields), Obj(fields[k := v]);
    forall j | j in fields && j != k ensures EntryWidth(after, j, sep) == EntryWidth(before, j, sep) { }
    assert EntryWidth(after, k, sep) == QuotedWidth(k) + 2 * sep + Width(v, sep);
  }

  lemma MemberReplaced(fields: map<string, Value>, k: string, v: Value, sep: nat)
    requires k in fields && sep <= 2
    ensures Width(Obj(fields[k := v]), sep) + Width(fields[k], sep) == Width(Obj(fields), sep) + Width(v, sep)
  {
    var before, after := Entries(Obj(fields), sep), Entries(Obj(fields[k := v]), sep);
    var entry := QuotedWidth(k) + 2 * sep + Width(v, sep);
    EntriesReplaced(fields, k, v, sep);
    TotalWith(before, k, entry);
    assert k in before && before[k] == EntryWidth(Obj(fields), k, sep);
  }
}
