/**
 JSON values as the record operators see them after `json.loads`, and the canonical text
 `json.dumps(value, ensure_ascii=False, sort_keys=True, separators=(",", ":"))` they are
 compared and grouped by.  Numbers are integers.

 The two results used everywhere else are that the canonical text determines the value
 (`EncodeInjective`) and that its first character separates the JSON types (`HeadSeparatesTypes`).
 */
module Json {

  datatype Json =
    | Null
    | Bool(b: bool)
    | Num(n: int)
    | Str(s: string)
    | Arr(items: seq<Json>)
    | Obj(fields: map<string, Json>)

  // ---------- Python string order: lexicographic by code point ----------

  function CompareStrings(a: string, b: string): int {
    if a == [] then (if b == [] then 0 else -1)
    else if b == [] then 1
    else if a[0] < b[0] then -1
    else if a[0] > b[0] then 1
    else CompareStrings(a[1..], b[1..])
  }

  lemma {:induction false} CompareStringsZero(a: string, b: string)
    ensures CompareStrings(a, b) == 0 <==> a == b
  {
    if a != [] && b != [] && a[0] == b[0] {
      CompareStringsZero(a[1..], b[1..]);
      assert a == [a[0]] + a[1..] && b == [b[0]] + b[1..];
    }
  }

  lemma {:induction false} CompareStringsAntisymmetric(a: string, b: string)
    ensures CompareStrings(a, b) == -CompareStrings(b, a)
  {
    if a != [] && b != [] && a[0] == b[0] {
      CompareStringsAntisymmetric(a[1..], b[1..]);
    }
  }

  lemma {:induction false} CompareStringsTransitive(a: string, b: string, c: string)
    requires CompareStrings(a, b) <= 0 && CompareStrings(b, c) <= 0
    ensures CompareStrings(a, c) <= 0
  {
    if a != [] && b != [] && c != [] && a[0] == b[0] == c[0] {
      CompareStringsTransitive(a[1..], b[1..], c[1..]);
    }
  }

  /** `a < b` as Python reads it: a proper prefix, or less at the first place where the two differ. */
  predicate ComesBefore(a: string, b: string) {
    exists k :: 0 <= k <= |a| && k < |b| && a[..k] == b[..k] && (k == |a| || a[k] < b[k])
  }

  lemma {:induction false} ComparesLess(a: string, b: string)
    requires CompareStrings(a, b) < 0
    ensures ComesBefore(a, b)
  {
    if a == [] {
      assert a[..0] == b[..0];
    } else if a[0] < b[0] {
      assert a[..0] == b[..0];
    } else {
      ComparesLess(a[1..], b[1..]);
      var k :| 0 <= k <= |a[1..]| && k < |b[1..]| && a[1..][..k] == b[1..][..k]
               && (k == |a[1..]| || a[1..][k] < b[1..][k]);
      assert a[..k + 1] == [a[0]] + a[1..][..k] && b[..k + 1] == [b[0]] + b[1..][..k];
    }
  }

  lemma NotBothBefore(a: string, b: string)
    requires ComesBefore(a, b)
    ensures a != b && !ComesBefore(b, a)
  {
    var k :| 0 <= k <= |a| && k < |b| && a[..k] == b[..k] && (k == |a| || a[k] < b[k]);
    forall j | 0 <= j <= |b| && j < |a| && b[..j] == a[..j]
      ensures !(j == |b| || b[j] < a[j])
    {
      assert j < k ==> a[..k][j] == b[..k][j];
    }
  }

  /** The comparison is the order of the strings. */
  lemma StringOrder(a: string, b: string)
    ensures CompareStrings(a, b) == if a == b then 0 else if ComesBefore(a, b) then -1 else 1
    ensures a != b ==> ComesBefore(a, b) != ComesBefore(b, a)
  {
    CompareStringsZero(a, b);
    CompareStringsAntisymmetric(a, b);
    if CompareStrings(a, b) < 0 {
      ComparesLess(a, b);
      NotBothBefore(a, b);
    } else if CompareStrings(a, b) > 0 {
      ComparesLess(b, a);
      NotBothBefore(b, a);
    }
    CompareIsSign(a, b);
  }

  lemma {:induction false} CompareIsSign(a: string, b: string)
    ensures -1 <= CompareStrings(a, b) <= 1
  {
    if a != [] && b != [] { CompareIsSign(a[1..], b[1..]); }
  }

  predicate StringLess(a: string, b: string) {
    CompareStrings(a, b) < 0
  }

  // ---------- sorted object keys ----------

  predicate IsLeastKey(k: string, keys: set<string>) {
    k in keys && forall other <- keys :: CompareStrings(k, other) <= 0
  }

  lemma {:induction false} LeastKeyExists(keys: set<string>) returns (k: string)
    requires keys != {}
    ensures IsLeastKey(k, keys)
    decreases |keys|
  {
    k :| k in keys;
    var rest := keys - {k};
    CompareStringsZero(k, k);
    if rest != {} {
      var m := LeastKeyExists(rest);
      CompareStringsAntisymmetric(k, m);
      if CompareStrings(m, k) < 0 {
        assert forall other <- keys :: other == k || other in rest;
        k := m;
      } else {
        forall other | other in keys
          ensures CompareStrings(k, other) <= 0
        {
          if other in rest { CompareStringsTransitive(k, m, other); }
        }
      }
    }
  }

  lemma LeastKeyUnique(keys: set<string>)
    ensures forall k, l :: IsLeastKey(k, keys) && IsLeastKey(l, keys) ==> k == l
  {
    forall k, l | IsLeastKey(k, keys) && IsLeastKey(l, keys)
      ensures k == l
    {
      CompareStringsAntisymmetric(k, l);
      CompareStringsZero(k, l);
    }
  }

  function SortedKeys(keys: set<string>): (ks: seq<string>)
    ensures forall k :: k in ks <==> k in keys
    ensures forall i, j :: 0 <= i < j < |ks| ==> StringLess(ks[i], ks[j])
    decreases |keys|
  {
    if keys == {} then []
    else
      assert exists k :: IsLeastKey(k, keys) by { var m := LeastKeyExists(keys); }
      LeastKeyUnique(keys);
      var k :| IsLeastKey(k, keys);
      var rest := SortedKeys(keys - {k});
      assert forall i :: 0 <= i < |rest| ==> StringLess(k, rest[i]) by {
        forall i | 0 <= i < |rest| ensures StringLess(k, rest[i]) {
          assert rest[i] in keys - {k};
          CompareStringsZero(k, rest[i]);
        }
      }
      [k] + rest
  }

  // ---------- numbers ----------

  function Digit(d: nat): char
    requires d < 10
  {
    ('0' as int + d) as char
  }

  predicate IsDigit(c: char) {
    '0' <= c <= '9'
  }

  function Decimal(n: nat): (s: string)
    ensures s != [] && forall c <- s :: IsDigit(c)
  {
    if n < 10 then [Digit(n)] else Decimal(n / 10) + [Digit(n % 10)]
  }

  function IntText(n: int): string {
    if n < 0 then "-" + Decimal(-n) else Decimal(n)
  }

  function DigitsValue(s: string): int {
    if s == [] then 0
    else 10 * DigitsValue(s[..|s| - 1]) + (s[|s| - 1] as int - '0' as int)
  }

  /** Reading back a decimal numeral gives the number. */
  lemma {:induction false} DecimalValue(n: nat)
    ensures DigitsValue(Decimal(n)) == n
  {
    if n >= 10 {
      DecimalValue(n / 10);
      var s := Decimal(n);
      assert s[..|s| - 1] == Decimal(n / 10);
    }
  }

  // ---------- strings ----------

  function HexDigit(d: nat): char
    requires d < 16
  {
    if d < 10 then Digit(d) else ('a' as int + d - 10) as char
  }

  function EscapeChar(c: char): string {
    if c == '\"' then "\\\""
    else if c == '\\' then "\\\\"
    else if c == '\n' then "\\n"
    else if c == '\r' then "\\r"
    else if c == '\t' then "\\t"
    else if c as int == 8 then "\\b"
    else if c as int == 12 then "\\f"
    else if c as int < 32 then "\\u00" + [HexDigit(c as int / 16), HexDigit(c as int % 16)]
    else [c]
  }

  function EscapeBody(s: string): string {
    if s == [] then [] else EscapeChar(s[0]) + EscapeBody(s[1..])
  }

  function Quote(s: string): string {
    ['\"'] + EscapeBody(s) + ['\"']
  }

  // ---------- values ----------

  function Encode(v: Json): (text: string)
    ensures text != []
    decreases v, 1
  {
    match v
    case Null => "null"
    case Bool(b) => if b then "true" else "false"
    case Num(n) => IntText(n)
    case Str(s) => Quote(s)
    case Arr(items) =>
      ['['] + (if items == [] then [] else Encode(items[0]) + EncodeItemTail(items[1..])) + [']']
    case Obj(fields) =>
      var ks := SortedKeys(fields.Keys);
      ['{'] + (if ks == [] then [] else EncodeMember(v, ks[0]) + EncodeMemberTail(v, ks[1..])) + ['}']
  }

  function EncodeItemTail(items: seq<Json>): string
    decreases items, 1
  {
    if items == [] then []
    else [','] + Encode(items[0]) + EncodeItemTail(items[1..])
  }

  function EncodeMember(v: Json, k: string): string
    requires v.Obj? && k in v.fields
    decreases v, 0, 0
  {
    Quote(k) + [':'] + Encode(v.fields[k])
  }

  function EncodeMemberTail(v: Json, ks: seq<string>): string
    requires v.Obj? && forall k <- ks :: k in v.fields
    decreases v, 0, |ks|
  {
    if ks == [] then []
    else [','] + EncodeMember(v, ks[0]) + EncodeMemberTail(v, ks[1..])
  }
}
