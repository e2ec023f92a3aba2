/**
 The canonical text as a grammar: what sections 3 to 7 of RFC 8259 call a value, an object, an array, a number and a
 string, in the one form without white space, with sorted keys and with the escapes that Python writes.
 */
module JsonText {
  import opened Json

  // ---------- numbers ----------

  /** Digits without a leading zero, after a minus sign when the number is negative. */
  ghost predicate IsNumber(text: string, n: int) {
    if n < 0 then text != [] && text[0] == '-' && IsNumeral(text[1..], -n) else IsNumeral(text, n)
  }

  ghost predicate IsNumeral(text: string, n: nat) {
    && text != [] && (forall c <- text :: IsDigit(c))
    && (text[0] == '0' ==> |text| == 1)
    && DigitsValue(text) == n
  }

  lemma {:induction false} DecimalIsNumeral(n: nat)
    ensures IsNumeral(Decimal(n), n)
    ensures n > 0 ==> Decimal(n)[0] != '0'
  {
    DecimalValue(n);
    if n >= 10 { DecimalIsNumeral(n / 10); }
  }

  lemma {:induction false} NumeralIsPositive(text: string, n: nat)
    requires IsNumeral(text, n) && text[0] != '0'
    ensures n > 0
  {
    if |text| > 1 {
      var front := text[..|text| - 1];
      assert forall c <- front :: c in text;
      assert IsDigit(text[|text| - 1]);
      DigitsNatural(front);
      NumeralIsPositive(front, DigitsValue(front));
    } else {
      assert IsDigit(text[0]) && DigitsValue(text[..0]) == 0;
    }
  }

  lemma {:induction false} DigitsNatural(text: string)
    requires forall c <- text :: IsDigit(c)
    ensures DigitsValue(text) >= 0
  {
    if text != [] {
      assert forall c <- text[..|text| - 1] :: c in text;
      assert IsDigit(text[|text| - 1]);
      DigitsNatural(text[..|text| - 1]);
    }
  }

  lemma {:induction false} NumeralIsDecimal(text: string, n: nat)
    requires IsNumeral(text, n)
    ensures text == Decimal(n)
  {
    var front, last := text[..|text| - 1], text[|text| - 1];
    assert text == front + [last] && IsDigit(last);
    if |text| == 1 {
      assert front == [] && DigitsValue(front) == 0;
    } else {
      assert forall c <- front :: c in text;
      DigitsNatural(front);
      NumeralIsPositive(front, DigitsValue(front));
      NumeralIsDecimal(front, DigitsValue(front));
      assert n / 10 == DigitsValue(front);
    }
  }

  lemma NumberText(text: string, n: int)
    ensures text == IntText(n) <==> IsNumber(text, n)
  {
    if n < 0 {
      DecimalIsNumeral(-n);
      if IsNumber(text, n) {
        NumeralIsDecimal(text[1..], -n);
        assert text == [text[0]] + text[1..];
      }
    } else {
      DecimalIsNumeral(n);
      if IsNumber(text, n) { NumeralIsDecimal(text, n); }
    }
  }

  // ---------- strings ----------

  /** The letter after a backslash, and the character it stands for. */
  predicate ShortEscape(letter: char, c: char) {
    || (letter == '\"' && c == '\"')
    || (letter == '\\' && c == '\\')
    || (letter == 'b' && c as int == 8)
    || (letter == 't' && c as int == 9)
    || (letter == 'n' && c as int == 10)
    || (letter == 'f' && c as int == 12)
    || (letter == 'r' && c as int == 13)
  }

  predicate IsHex(h: char, d: int) {
    ('0' <= h <= '9' && d == h as int - 48) || ('a' <= h <= 'f' && d == h as int - 87)
  }

  /**
   How a character is written: as itself, with its letter when it is one of seven, and as a number when it is another
   control character.
   */
  ghost predicate Writes(part: string, c: char) {
    if exists letter :: ShortEscape(letter, c) then |part| == 2 && part[0] == '\\' && ShortEscape(part[1], c)
    else if c as int < 32 then
      && |part| == 6 && part[..4] == "\\u00"
      && exists high, low :: IsHex(part[4], high) && IsHex(part[5], low) && c as int == 16 * high + low
    else part == [c]
  }

  function Concatenated(parts: seq<string>): string {
    if parts == [] then [] else parts[0] + Concatenated(parts[1..])
  }

  ghost predicate IsString(text: string, s: string) {
    exists parts: seq<string> ::
      && |parts| == |s| && (forall i :: 0 <= i < |s| ==> Writes(parts[i], s[i]))
      && text == "\"" + Concatenated(parts) + "\""
  }

  lemma ShortText(c: char, letter: char)
    requires ShortEscape(letter, c)
    ensures EscapeChar(c) == ['\\', letter]
  {
  }

  lemma HexText(h: char, d: int)
    requires IsHex(h, d)
    ensures 0 <= d < 16 && h == HexDigit(d)
  {
  }

  lemma HexWrites(d: nat)
    requires d < 16
    ensures IsHex(HexDigit(d), d)
  {
  }

  lemma ControlText(part: string, c: char)
    requires c as int < 32 && forall letter :: !ShortEscape(letter, c)
    ensures part == EscapeChar(c) <==> Writes(part, c)
  {
    assert !ShortEscape('b', c) && !ShortEscape('t', c) && !ShortEscape('n', c);
    assert !ShortEscape('f', c) && !ShortEscape('r', c);
    HexWrites(c as int / 16);
    HexWrites(c as int % 16);
    var text := EscapeChar(c);
    assert text[..4] == "\\u00" && text[4] == HexDigit(c as int / 16) && text[5] == HexDigit(c as int % 16);
    if Writes(part, c) {
      var high, low :| IsHex(part[4], high) && IsHex(part[5], low) && c as int == 16 * high + low;
      HexText(part[4], high);
      HexText(part[5], low);
      assert part == part[..4] + [part[4], part[5]];
    }
  }

  lemma CharText(part: string, c: char)
    ensures part == EscapeChar(c) <==> Writes(part, c)
  {
    if letter :| ShortEscape(letter, c) {
      ShortText(c, letter);
      if Writes(part, c) { ShortText(c, part[1]); }
    } else if c as int < 32 {
      ControlText(part, c);
    } else {
      assert !ShortEscape('\"', c) && !ShortEscape('\\', c);
    }
  }

  lemma {:induction false} BodyParts(s: string) returns (parts: seq<string>)
    ensures |parts| == |s| && (forall i :: 0 <= i < |s| ==> Writes(parts[i], s[i]))
    ensures Concatenated(parts) == EscapeBody(s)
  {
    parts := [];
    if s != [] {
      var rest := BodyParts(s[1..]);
      CharText(EscapeChar(s[0]), s[0]);
      parts := [EscapeChar(s[0])] + rest;
    }
  }

  lemma {:induction false} PartsBody(parts: seq<string>, s: string)
    requires |parts| == |s| && forall i :: 0 <= i < |s| ==> Writes(parts[i], s[i])
    ensures Concatenated(parts) == EscapeBody(s)
  {
    if s != [] {
      CharText(parts[0], s[0]);
      PartsBody(parts[1..], s[1..]);
    }
  }

  lemma StringText(text: string, s: string)
    ensures text == Quote(s) <==> IsString(text, s)
  {
    var parts := BodyParts(s);
    assert text == Quote(s) ==> text == "\"" + Concatenated(parts) + "\"";
    if IsString(text, s) {
      var others: seq<string> :|
        && |others| == |s| && (forall i :: 0 <= i < |s| ==> Writes(others[i], s[i]))
        && text == "\"" + Concatenated(others) + "\"";
      PartsBody(others, s);
    }
  }

  // ---------- values ----------

  /** The parts with commas between them. */
  function Commas(parts: seq<string>): string {
    if parts == [] then []
    else if |parts| == 1 then parts[0]
    else parts[0] + "," + Commas(parts[1..])
  }

  /** The keys of an object, each once, in the order of their characters. */
  ghost predicate InKeyOrder(keys: seq<string>, fields: map<string, Json>) {
    && (forall k :: k in keys <==> k in fields)
    && forall i, j :: 0 <= i < j < |keys| ==> ComesBefore(keys[i], keys[j])
  }

  ghost predicate IsText(text: string, v: Json)
    decreases v, 1
  {
    match v
    case Null => text == "null"
    case Bool(b) => text == if b then "true" else "false"
    case Num(n) => IsNumber(text, n)
    case Str(s) => IsString(text, s)
    case Arr(items) =>
      exists parts: seq<string> ::
        && |parts| == |items| && (forall i :: 0 <= i < |items| ==> IsText(parts[i], items[i]))
        && text == "[" + Commas(parts) + "]"
    case Obj(fields) =>
      exists keys: seq<string>, names: seq<string>, parts: seq<string> ::
        && InKeyOrder(keys, fields) && AreMembers(v, keys, names, parts)
        && text == "{" + Commas(Members(names, parts)) + "}"
  }

  /** The names and the values of an object with these keys. */
  ghost predicate AreMembers(v: Json, keys: seq<string>, names: seq<string>, parts: seq<string>)
    requires v.Obj?
    decreases v, 0
  {
    && |names| == |parts| == |keys|
    && (forall i :: 0 <= i < |keys| ==> keys[i] in v.fields && IsString(names[i], keys[i]))
    && (forall i :: 0 <= i < |keys| ==> keys[i] in v.fields && IsText(parts[i], v.fields[keys[i]]))
  }

  function Members(names: seq<string>, parts: seq<string>): (members: seq<string>)
    requires |names| == |parts|
    ensures |members| == |parts|
  {
    seq(|parts|, i requires 0 <= i < |parts| => names[i] + ":" + parts[i])
  }

  /** What is between the brackets of an array. */
  function ItemsBody(items: seq<Json>): string {
    if items == [] then [] else Encode(items[0]) + EncodeItemTail(items[1..])
  }

  lemma CommaMoves(first: string, second: string, rest: string)
    ensures first + "," + (second + rest) == first + ("," + second + rest)
  {
  }

  lemma {:induction false} CommasOfItems(items: seq<Json>, parts: seq<string>)
    requires |parts| == |items| && forall i :: 0 <= i < |items| ==> parts[i] == Encode(items[i])
    ensures Commas(parts) == ItemsBody(items)
  {
    if |items| > 1 {
      CommasOfItems(items[1..], parts[1..]);
      assert EncodeItemTail(items[1..]) == "," + Encode(items[1..][0]) + EncodeItemTail(items[1..][1..]);
      CommaMoves(parts[0], Encode(items[1..][0]), EncodeItemTail(items[1..][1..]));
    } else if |items| == 1 {
      assert items[1..] == [] && Encode(items[0]) + [] == Encode(items[0]);
    }
  }

  /** What is between the braces of an object. */
  function MembersBody(v: Json, keys: seq<string>): string
    requires v.Obj? && forall k <- keys :: k in v.fields
  {
    if keys == [] then [] else EncodeMember(v, keys[0]) + EncodeMemberTail(v, keys[1..])
  }

  lemma {:induction false} CommasOfMembers(v: Json, keys: seq<string>, members: seq<string>)
    requires v.Obj? && |members| == |keys| && forall k <- keys :: k in v.fields
    requires forall i :: 0 <= i < |keys| ==> members[i] == EncodeMember(v, keys[i])
    ensures Commas(members) == MembersBody(v, keys)
  {
    if |keys| > 1 {
      CommasOfMembers(v, keys[1..], members[1..]);
      assert EncodeMemberTail(v, keys[1..])
          == "," + EncodeMember(v, keys[1..][0]) + EncodeMemberTail(v, keys[1..][1..]);
      CommaMoves(members[0], EncodeMember(v, keys[1..][0]), EncodeMemberTail(v, keys[1..][1..]));
    } else if |keys| == 1 {
      assert keys[1..] == [] && EncodeMember(v, keys[0]) + [] == EncodeMember(v, keys[0]);
    }
  }

  lemma KeysInOrder(fields: map<string, Json>)
    ensures InKeyOrder(SortedKeys(fields.Keys), fields)
  {
    var keys := SortedKeys(fields.Keys);
    forall i, j | 0 <= i < j < |keys|
      ensures ComesBefore(keys[i], keys[j])
    {
      StringOrder(keys[i], keys[j]);
    }
  }

  lemma SomeKey(keys: seq<string>) returns (k: string)
    requires keys != []
    ensures k in keys
  {
    k := keys[0];
  }

  lemma {:induction false} OneKeyOrder(a: seq<string>, b: seq<string>)
    requires forall i, j :: 0 <= i < j < |a| ==> ComesBefore(a[i], a[j])
    requires forall i, j :: 0 <= i < j < |b| ==> ComesBefore(b[i], b[j])
    requires forall k :: k in a <==> k in b
    ensures a == b
  {
    if a == [] {
      if b != [] { var k := SomeKey(b); }
    } else {
      assert a[0] in b;
      FirstKey(a, b);
      assert forall i :: 0 < i < |a| ==> ComesBefore(a[0], a[i]);
      assert forall i :: 0 < i < |b| ==> ComesBefore(b[0], b[i]);
      RestKeys(a, b);
      OneKeyOrder(a[1..], b[1..]);
      assert a == [a[0]] + a[1..] && b == [b[0]] + b[1..];
    }
  }

  lemma FirstKey(a: seq<string>, b: seq<string>)
    requires a != [] && b != [] && a[0] in b && b[0] in a
    requires forall i, j :: 0 <= i < j < |a| ==> ComesBefore(a[i], a[j])
    requires forall i, j :: 0 <= i < j < |b| ==> ComesBefore(b[i], b[j])
    ensures a[0] == b[0]
  {
    if a[0] != b[0] { StringOrder(a[0], b[0]); }
  }

  lemma TailHas(keys: seq<string>, k: string)
    requires keys != [] && forall i :: 0 < i < |keys| ==> ComesBefore(keys[0], keys[i])
    ensures k in keys[1..] <==> k in keys && k != keys[0]
  {
    NotBeforeItself(keys[0]);
    assert keys == [keys[0]] + keys[1..];
    if k in keys[1..] {
      var i :| 0 <= i < |keys[1..]| && keys[1..][i] == k;
      assert keys[i + 1] == k;
    }
  }

  lemma RestKeys(a: seq<string>, b: seq<string>)
    requires a != [] && b != [] && a[0] == b[0] && forall k :: k in a <==> k in b
    requires forall i :: 0 < i < |a| ==> ComesBefore(a[0], a[i])
    requires forall i :: 0 < i < |b| ==> ComesBefore(b[0], b[i])
    ensures forall k :: k in a[1..] <==> k in b[1..]
  {
    forall k
      ensures k in a[1..] <==> k in b[1..]
    {
      TailHas(a, k);
      TailHas(b, k);
    }
  }

  lemma NotBeforeItself(k: string)
    ensures !ComesBefore(k, k)
  {
  }

  lemma ObjectText(v: Json, keys: seq<string>)
    requires v.Obj? && keys == SortedKeys(v.fields.Keys)
    ensures Encode(v) == "{" + MembersBody(v, keys) + "}"
  {
  }

  lemma {:induction false} EncodeIsText(v: Json)
    ensures IsText(Encode(v), v)
    decreases v, 1
  {
    match v
    case Null =>
    case Bool(_) =>
    case Num(n) => NumberText(Encode(v), n);
    case Str(s) => StringText(Encode(v), s);
    case Arr(items) =>
      var parts := seq(|items|, i requires 0 <= i < |items| => Encode(items[i]));
      forall i | 0 <= i < |items|
        ensures IsText(parts[i], items[i])
      {
        EncodeIsText(items[i]);
      }
      CommasOfItems(items, parts);
    case Obj(fields) =>
      var keys := SortedKeys(fields.Keys);
      var names, parts := EncodedMembers(v, keys);
      KeysInOrder(fields);
      CommasOfMembers(v, keys, Members(names, parts));
      ObjectText(v, keys);
  }

  lemma {:induction false} EncodedMembers(v: Json, keys: seq<string>) returns (names: seq<string>, parts: seq<string>)
    requires v.Obj? && forall k <- keys :: k in v.fields
    ensures AreMembers(v, keys, names, parts)
    ensures forall i :: 0 <= i < |keys| ==> Members(names, parts)[i] == EncodeMember(v, keys[i])
    decreases v, 0
  {
    names := seq(|keys|, i requires 0 <= i < |keys| => Quote(keys[i]));
    parts := seq(|keys|, i requires 0 <= i < |keys| && keys[i] in v.fields => Encode(v.fields[keys[i]]));
    forall i | 0 <= i < |keys|
      ensures IsString(names[i], keys[i]) && IsText(parts[i], v.fields[keys[i]])
    {
      StringText(names[i], keys[i]);
      EncodeIsText(v.fields[keys[i]]);
    }
  }

  lemma {:induction false} TextIsEncode(text: string, v: Json)
    requires IsText(text, v)
    ensures text == Encode(v)
    decreases v, 1
  {
    match v
    case Null =>
    case Bool(_) =>
    case Num(n) => NumberText(text, n);
    case Str(s) => StringText(text, s);
    case Arr(items) =>
      var parts: seq<string> :|
        && |parts| == |items| && (forall i :: 0 <= i < |items| ==> IsText(parts[i], items[i]))
        && text == "[" + Commas(parts) + "]";
      forall i | 0 <= i < |items|
        ensures parts[i] == Encode(items[i])
      {
        TextIsEncode(parts[i], items[i]);
      }
      CommasOfItems(items, parts);
    case Obj(fields) =>
      var keys: seq<string>, names: seq<string>, parts: seq<string> :|
        && InKeyOrder(keys, fields) && AreMembers(v, keys, names, parts)
        && text == "{" + Commas(Members(names, parts)) + "}";
      KeysInOrder(fields);
      OneKeyOrder(keys, SortedKeys(fields.Keys));
      MembersEncode(v, keys, names, parts);
      CommasOfMembers(v, keys, Members(names, parts));
      ObjectText(v, keys);
  }

  lemma {:induction false} MembersEncode(v: Json, keys: seq<string>, names: seq<string>, parts: seq<string>)
    requires v.Obj? && AreMembers(v, keys, names, parts)
    ensures forall i :: 0 <= i < |keys| ==> Members(names, parts)[i] == EncodeMember(v, keys[i])
    decreases v, 0
  {
    forall i | 0 <= i < |keys|
      ensures Members(names, parts)[i] == EncodeMember(v, keys[i])
    {
      StringText(names[i], keys[i]);
      TextIsEncode(parts[i], v.fields[keys[i]]);
    }
  }

  /** The canonical text is the one text of the value in this grammar. */
  lemma EncodeExactly(text: string, v: Json)
    ensures text == Encode(v) <==> IsText(text, v)
  {
    EncodeIsText(v);
    if IsText(text, v) { TextIsEncode(text, v); }
  }
}
