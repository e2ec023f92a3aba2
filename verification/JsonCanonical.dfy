/**
 The canonical text of a JSON value determines the value, also when other text follows it.
 */
module JsonCanonical {
  import opened Json

  lemma CancelHead(c: char, u: string, d: char, v: string)
    requires [c] + u == [d] + v
    ensures c == d && u == v
  {
    assert ([c] + u)[0] == c && ([d] + v)[0] == d;
    assert ([c] + u)[1..] == u && ([d] + v)[1..] == v;
  }

  lemma CancelPrefix(x: string, s: string, y: string, t: string)
    requires x + s == y + t && |x| == |y|
    ensures x == y && s == t
  {
    assert (x + s)[..|x|] == x && (y + t)[..|x|] == y;
    assert (x + s)[|x|..] == s && (y + t)[|x|..] == t;
  }

  lemma Reassociate(x: string, y: string, z: string)
    ensures (x + y) + z == x + (y + z)
  {
  }

  // ---------- numbers ----------

  lemma DigitRunPrefix(x: string, y: string, s: string, t: string)
    requires x + s == y + t
    requires (forall c <- x :: IsDigit(c)) && (forall c <- y :: IsDigit(c))
    requires s == [] || !IsDigit(s[0])
    requires t == [] || !IsDigit(t[0])
    ensures x == y && s == t
  {
    assert forall i :: 0 <= i < |x| ==> IsDigit((x + s)[i]);
    assert forall i :: 0 <= i < |y| ==> IsDigit((y + t)[i]);
    assert s != [] ==> (x + s)[|x|] == s[0];
    assert t != [] ==> (y + t)[|y|] == t[0];
    assert |x| + |s| == |x + s| == |y + t| == |y| + |t|;
    CancelPrefix(x, s, y, t);
  }

  lemma DecimalPrefix(n: nat, m: nat, s: string, t: string)
    requires Decimal(n) + s == Decimal(m) + t
    requires s == [] || !IsDigit(s[0])
    requires t == [] || !IsDigit(t[0])
    ensures n == m && s == t
  {
    DigitRunPrefix(Decimal(n), Decimal(m), s, t);
    DecimalValue(n);
    DecimalValue(m);
  }

  lemma DecimalHead(n: nat)
    ensures IsDigit(Decimal(n)[0])
  {
  }

  lemma IntTextSign(n: int, s: string)
    ensures (IntText(n) + s)[0] == '-' <==> n < 0
  {
    assert (IntText(n) + s)[0] == IntText(n)[0];
    DecimalHead(if n < 0 then -n else n);
  }

  lemma IntTextPrefix(n: int, m: int, s: string, t: string)
    requires IntText(n) + s == IntText(m) + t
    requires s == [] || !IsDigit(s[0])
    requires t == [] || !IsDigit(t[0])
    ensures n == m && s == t
  {
    IntTextSign(n, s);
    IntTextSign(m, t);
    if n < 0 { NegativePrefix(-n, -m, s, t); } else { DecimalPrefix(n, m, s, t); }
  }

  lemma NegativePrefix(n: nat, m: nat, s: string, t: string)
    requires "-" + Decimal(n) + s == "-" + Decimal(m) + t
    requires s == [] || !IsDigit(s[0])
    requires t == [] || !IsDigit(t[0])
    ensures n == m && s == t
  {
    assert "-" + Decimal(n) + s == ['-'] + (Decimal(n) + s);
    assert "-" + Decimal(m) + t == ['-'] + (Decimal(m) + t);
    CancelHead('-', Decimal(n) + s, '-', Decimal(m) + t);
    DecimalPrefix(n, m, s, t);
  }

  // ---------- strings ----------

  lemma EscapeCharPrefix(c: char, d: char, s: string, t: string)
    requires EscapeChar(c) + s == EscapeChar(d) + t
    ensures c == d && s == t
  {
    var x, y := EscapeChar(c), EscapeChar(d);
    assert x[0] == (x + s)[0] == (y + t)[0] == y[0];
    if x[0] == '\\' {
      assert x[1] == (x + s)[1] == (y + t)[1] == y[1];
      assert |x| == |y|;
    }
    CancelPrefix(x, s, y, t);
    if |x| == 6 {
      assert x[4] == y[4] && x[5] == y[5];
      assert c as int / 16 == d as int / 16 && c as int % 16 == d as int % 16;
    }
  }

  lemma EscapeBodyHead(a: string, u: string)
    ensures (EscapeBody(a) + (['\"'] + u))[0] == '\"' <==> a == []
  {
  }

  lemma {:induction false} EscapeBodyPrefix(a: string, b: string, s: string, t: string)
    requires EscapeBody(a) + (['\"'] + s) == EscapeBody(b) + (['\"'] + t)
    ensures a == b && s == t
  {
    EscapeBodyHead(a, s);
    EscapeBodyHead(b, t);
    if a == [] {
      assert EscapeBody(a) + (['\"'] + s) == ['\"'] + s;
      assert EscapeBody(b) + (['\"'] + t) == ['\"'] + t;
      CancelHead('\"', s, '\"', t);
    } else {
      var u, v := EscapeBody(a[1..]) + (['\"'] + s), EscapeBody(b[1..]) + (['\"'] + t);
      Reassociate(EscapeChar(a[0]), EscapeBody(a[1..]), ['\"'] + s);
      Reassociate(EscapeChar(b[0]), EscapeBody(b[1..]), ['\"'] + t);
      EscapeCharPrefix(a[0], b[0], u, v);
      EscapeBodyPrefix(a[1..], b[1..], s, t);
      assert a == [a[0]] + a[1..] && b == [b[0]] + b[1..];
    }
  }

  lemma QuotePrefix(a: string, b: string, s: string, t: string)
    requires Quote(a) + s == Quote(b) + t
    ensures a == b && s == t
  {
    var u, v := EscapeBody(a) + (['\"'] + s), EscapeBody(b) + (['\"'] + t);
    assert Quote(a) + s == ['\"'] + u;
    assert Quote(b) + t == ['\"'] + v;
    CancelHead('\"', u, '\"', v);
    EscapeBodyPrefix(a, b, s, t);
  }

  // ---------- the first character of a value ----------

  /** Position of a JSON type in the order of first characters (`"` < `-`,0-9 < `[` < `f`,`t` < `{`). */
  function TypeRank(v: Json): int {
    match v
    case Str(_) => 0
    case Num(_) => 1
    case Arr(_) => 2
    case Bool(_) => 3
    case Null => 4
    case Obj(_) => 5
  }

  predicate HeadOf(rank: int, c: char) {
    match rank
    case 0 => c == '\"'
    case 1 => c == '-' || IsDigit(c)
    case 2 => c == '['
    case 3 => c == 'f' || c == 't'
    case 4 => c == 'n'
    case _ => c == '{'
  }

  lemma EncodeHead(v: Json)
    ensures HeadOf(TypeRank(v), Encode(v)[0])
  {
  }

  // ---------- values ----------

  /** Text that can follow a value inside an array, an object or at the end. */
  predicate Follows(s: string) {
    s == [] || s[0] == ',' || s[0] == ']' || s[0] == '}'
  }

  lemma {:induction false} EncodePrefix(a: Json, b: Json, s: string, t: string)
    requires Encode(a) + s == Encode(b) + t
    requires Follows(s) && Follows(t)
    ensures a == b && s == t
    decreases a, 2
  {
    EncodeHead(a);
    EncodeHead(b);
    assert (Encode(a) + s)[0] == Encode(a)[0] && (Encode(b) + t)[0] == Encode(b)[0];
    match a
    case Null =>
      CancelPrefix(Encode(a), s, Encode(b), t);
    case Bool(p) =>
      CancelPrefix(Encode(a), s, Encode(b), t);
    case Num(n) =>
      IntTextPrefix(n, b.n, s, t);
    case Str(x) =>
      QuotePrefix(x, b.s, s, t);
    case Arr(_) =>
      ArrayPrefix(a, b, s, t);
    case Obj(_) =>
      ObjectPrefix(a, b, s, t);
  }

  lemma ItemTailHead(xs: seq<Json>, s: string)
    ensures (EncodeItemTail(xs) + ([']'] + s))[0] == if xs == [] then ']' else ','
  {
  }

  lemma ItemTailUnfold(xs: seq<Json>, u: string)
    requires xs != []
    ensures EncodeItemTail(xs) + u == [','] + (Encode(xs[0]) + (EncodeItemTail(xs[1..]) + u))
  {
  }

  lemma {:induction false} ItemTailPrefix(xs: seq<Json>, ys: seq<Json>, s: string, t: string)
    requires EncodeItemTail(xs) + ([']'] + s) == EncodeItemTail(ys) + ([']'] + t)
    ensures xs == ys && s == t
    decreases xs, 2
  {
    ItemTailHead(xs, s);
    ItemTailHead(ys, t);
    if xs == [] {
      CancelPrefix([], [']'] + s, [], [']'] + t);
      CancelHead(']', s, ']', t);
    } else {
      var u, v := EncodeItemTail(xs[1..]) + ([']'] + s), EncodeItemTail(ys[1..]) + ([']'] + t);
      ItemTailUnfold(xs, [']'] + s);
      ItemTailUnfold(ys, [']'] + t);
      CancelHead(',', Encode(xs[0]) + u, ',', Encode(ys[0]) + v);
      ItemTailHead(xs[1..], s);
      ItemTailHead(ys[1..], t);
      EncodePrefix(xs[0], ys[0], u, v);
      ItemTailPrefix(xs[1..], ys[1..], s, t);
      assert xs == [xs[0]] + xs[1..] && ys == [ys[0]] + ys[1..];
    }
  }

  /** What an array's text is after its opening bracket. */
  function ItemsText(xs: seq<Json>, u: string): string {
    if xs == [] then [']'] + u else Encode(xs[0]) + (EncodeItemTail(xs[1..]) + ([']'] + u))
  }

  lemma ArrayUnfold(a: Json, u: string)
    requires a.Arr?
    ensures Encode(a) + u == ['['] + ItemsText(a.items, u)
    ensures ItemsText(a.items, u)[0] == ']' <==> a.items == []
  {
    var xs := a.items;
    if xs != [] {
      EncodeHead(xs[0]);
      var tail := EncodeItemTail(xs[1..]);
      Reassociate(['['] + (Encode(xs[0]) + tail), [']'], u);
      Reassociate(['['], Encode(xs[0]) + tail, [']'] + u);
      Reassociate(Encode(xs[0]), tail, [']'] + u);
    }
  }

  lemma {:induction false} ArrayPrefix(a: Json, b: Json, s: string, t: string)
    requires a.Arr? && b.Arr?
    requires Encode(a) + s == Encode(b) + t
    ensures a == b && s == t
    decreases a, 1
  {
    var xs, ys := a.items, b.items;
    ArrayUnfold(a, s);
    ArrayUnfold(b, t);
    CancelHead('[', ItemsText(xs, s), '[', ItemsText(ys, t));
    if xs == [] {
      CancelHead(']', s, ']', t);
    } else {
      ItemTailHead(xs[1..], s);
      ItemTailHead(ys[1..], t);
      EncodePrefix(xs[0], ys[0], EncodeItemTail(xs[1..]) + ([']'] + s), EncodeItemTail(ys[1..]) + ([']'] + t));
      ItemTailPrefix(xs[1..], ys[1..], s, t);
      assert xs == [xs[0]] + xs[1..] && ys == [ys[0]] + ys[1..];
    }
  }

  lemma MemberUnfold(a: Json, k: string, u: string)
    requires a.Obj? && k in a.fields
    ensures EncodeMember(a, k) + u == Quote(k) + ([':'] + (Encode(a.fields[k]) + u))
    ensures (EncodeMember(a, k) + u)[0] == '\"'
  {
    var q, e := Quote(k), Encode(a.fields[k]);
    assert EncodeMember(a, k) == q + [':'] + e && q[0] == '\"';
    Reassociate(q + [':'], e, u);
    Reassociate(q, [':'], e + u);
  }

  lemma {:induction false} MemberPrefix(a: Json, b: Json, k: string, l: string, s: string, t: string)
    requires a.Obj? && b.Obj? && k in a.fields && l in b.fields
    requires EncodeMember(a, k) + s == EncodeMember(b, l) + t
    requires Follows(s) && Follows(t)
    ensures k == l && a.fields[k] == b.fields[l] && s == t
    decreases a, 0, 0
  {
    var u, v := Encode(a.fields[k]) + s, Encode(b.fields[l]) + t;
    MemberUnfold(a, k, s);
    MemberUnfold(b, l, t);
    QuotePrefix(k, l, [':'] + u, [':'] + v);
    CancelHead(':', u, ':', v);
    EncodePrefix(a.fields[k], b.fields[l], s, t);
  }

  lemma MemberTailHead(a: Json, ks: seq<string>, s: string)
    requires a.Obj? && forall k <- ks :: k in a.fields
    ensures (EncodeMemberTail(a, ks) + (['}'] + s))[0] == if ks == [] then '}' else ','
  {
  }

  lemma MemberTailUnfold(a: Json, ks: seq<string>, u: string)
    requires a.Obj? && forall k <- ks :: k in a.fields
    requires ks != []
    ensures EncodeMemberTail(a, ks) + u == [','] + (EncodeMember(a, ks[0]) + (EncodeMemberTail(a, ks[1..]) + u))
  {
  }

  lemma {:induction false} MemberTailPrefix(a: Json, b: Json, ks: seq<string>, ls: seq<string>, s: string, t: string)
    requires a.Obj? && b.Obj?
    requires (forall k <- ks :: k in a.fields) && (forall l <- ls :: l in b.fields)
    requires EncodeMemberTail(a, ks) + (['}'] + s) == EncodeMemberTail(b, ls) + (['}'] + t)
    ensures ks == ls && s == t
    ensures forall k <- ks :: k in b.fields && a.fields[k] == b.fields[k]
    decreases a, 0, |ks| + 1
  {
    MemberTailHead(a, ks, s);
    MemberTailHead(b, ls, t);
    if ks == [] {
      CancelPrefix([], ['}'] + s, [], ['}'] + t);
      CancelHead('}', s, '}', t);
    } else {
      var u, v := EncodeMemberTail(a, ks[1..]) + (['}'] + s), EncodeMemberTail(b, ls[1..]) + (['}'] + t);
      MemberTailUnfold(a, ks, ['}'] + s);
      MemberTailUnfold(b, ls, ['}'] + t);
      CancelHead(',', EncodeMember(a, ks[0]) + u, ',', EncodeMember(b, ls[0]) + v);
      MemberTailHead(a, ks[1..], s);
      MemberTailHead(b, ls[1..], t);
      MemberPrefix(a, b, ks[0], ls[0], u, v);
      MemberTailPrefix(a, b, ks[1..], ls[1..], s, t);
      assert ks == [ks[0]] + ks[1..] && ls == [ls[0]] + ls[1..];
    }
  }

  /** What an object's text is after its opening brace, for the sorted keys `ks`. */
  function MembersText(a: Json, ks: seq<string>, u: string): string
    requires a.Obj? && forall k <- ks :: k in a.fields
  {
    if ks == [] then ['}'] + u else EncodeMember(a, ks[0]) + (EncodeMemberTail(a, ks[1..]) + (['}'] + u))
  }

  lemma ObjectUnfold(a: Json, ks: seq<string>, u: string)
    requires a.Obj? && ks == SortedKeys(a.fields.Keys)
    ensures Encode(a) + u == ['{'] + MembersText(a, ks, u)
    ensures MembersText(a, ks, u)[0] == '}' <==> ks == []
  {
    if ks == [] {
      assert Encode(a) == ['{'] + [] + ['}'];
    } else {
      var m, rest := EncodeMember(a, ks[0]), EncodeMemberTail(a, ks[1..]);
      assert Encode(a) == ['{'] + (m + rest) + ['}'];
      Reassociate(['{'] + (m + rest), ['}'], u);
      Reassociate(['{'], m + rest, ['}'] + u);
      Reassociate(m, rest, ['}'] + u);
      MemberUnfold(a, ks[0], rest + (['}'] + u));
    }
  }

  lemma {:induction false} MembersTextPrefix(a: Json, b: Json, ks: seq<string>, ls: seq<string>, s: string, t: string)
    requires a.Obj? && b.Obj?
    requires (forall k <- ks :: k in a.fields) && (forall l <- ls :: l in b.fields)
    requires MembersText(a, ks, s) == MembersText(b, ls, t)
    requires ks == [] <==> ls == []
    ensures ks == ls && s == t
    ensures forall k <- ks :: k in b.fields && a.fields[k] == b.fields[k]
    decreases a, 0, |ks| + 2
  {
    if ks == [] {
      CancelHead('}', s, '}', t);
    } else {
      MemberTailHead(a, ks[1..], s);
      MemberTailHead(b, ls[1..], t);
      MemberPrefix(a, b, ks[0], ls[0],
                   EncodeMemberTail(a, ks[1..]) + (['}'] + s), EncodeMemberTail(b, ls[1..]) + (['}'] + t));
      MemberTailPrefix(a, b, ks[1..], ls[1..], s, t);
      assert ks == [ks[0]] + ks[1..] && ls == [ls[0]] + ls[1..];
    }
  }

  lemma SameMembers(a: Json, b: Json)
    requires a.Obj? && b.Obj?
    requires SortedKeys(a.fields.Keys) == SortedKeys(b.fields.Keys)
    requires forall k <- SortedKeys(a.fields.Keys) :: k in b.fields && a.fields[k] == b.fields[k]
    ensures a == b
  {
  }

  lemma {:induction false} ObjectPrefix(a: Json, b: Json, s: string, t: string)
    requires a.Obj? && b.Obj?
    requires Encode(a) + s == Encode(b) + t
    ensures a == b && s == t
    decreases a, 1
  {
    var ks, ls := SortedKeys(a.fields.Keys), SortedKeys(b.fields.Keys);
    ObjectUnfold(a, ks, s);
    ObjectUnfold(b, ls, t);
    CancelHead('{', MembersText(a, ks, s), '{', MembersText(b, ls, t));
    MembersTextPrefix(a, b, ks, ls, s, t);
    SameMembers(a, b);
  }

  /** Two values with the same canonical text are the same value. */
  lemma EncodeInjective(a: Json, b: Json)
    requires Encode(a) == Encode(b)
    ensures a == b
  {
    assert Encode(a) + [] == Encode(b) + [];
    EncodePrefix(a, b, [], []);
  }

  /** Texts of values of different types are ordered by the types alone. */
  lemma HeadSeparatesTypes(a: Json, b: Json)
    requires !a.Null? && !b.Null?
    requires TypeRank(a) < TypeRank(b)
    ensures CompareStrings(Encode(a), Encode(b)) == -1
  {
    EncodeHead(a);
    EncodeHead(b);
  }
}
