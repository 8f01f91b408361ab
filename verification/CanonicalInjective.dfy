/**
 Canonical JSON is injective: two accepted values have the same text exactly when they are equal up
 to member order and normal form. A text is read back from the left: no text continues another.
 */
module CanonicalInjective {
  import opened Options
  import opened CanonicalJson

  /** What can follow a value inside a text. */
  predicate Closes(s: string) { s == "" || s[0] in {',', ']', '}'} }

  /* ----- numbers ----- */

  predicate IsDigit(c: char) { '0' <= c <= '9' }

  lemma {:induction false} DigitsAreDigits(n: nat)
    ensures |Digits(n)| > 0 && forall i :: 0 <= i < |Digits(n)| ==> IsDigit(Digits(n)[i])
  {
    if n >= 10 { DigitsAreDigits(n / 10); }
  }

  lemma {:induction false} DigitsInjective(n: nat, m: nat)
    requires Digits(n) == Digits(m)
    ensures n == m
  {
    DigitsAreDigits(n / 10);
    DigitsAreDigits(m / 10);
    assert Digits(n)[|Digits(n)| - 1] == Digits(m)[|Digits(m)| - 1];
    if n >= 10 && m >= 10 {
      assert Digits(n)[..|Digits(n)| - 1] == Digits(n / 10);
      assert Digits(m)[..|Digits(m)| - 1] == Digits(m / 10);
      DigitsInjective(n / 10, m / 10);
    }
  }

  lemma DigitsUnfold(n: nat, m: nat, s: string, t: string)
    requires Digits(n) + s == Digits(m) + t && Closes(s) && Closes(t)
    ensures n == m && s == t
  {
    var x, y := Digits(n), Digits(m);
    DigitsAreDigits(n);
    DigitsAreDigits(m);
    assert |x| < |y| ==> IsDigit((x + s)[|x|]);
    assert |y| < |x| ==> IsDigit((y + t)[|y|]);
    assert x == (x + s)[..|x|] && y == (y + t)[..|y|];
    DigitsInjective(n, m);
    assert s == (x + s)[|x|..];
  }

  lemma DecimalUnfold(n: int, m: int, s: string, t: string)
    requires Decimal(n) + s == Decimal(m) + t && Closes(s) && Closes(t)
    ensures n == m && s == t
  {
    DecimalHead(n);
    DecimalHead(m);
    assert (Decimal(n) + s)[0] == (Decimal(m) + t)[0];
    if n < 0 {
      AfterSign(n, s);
      AfterSign(m, t);
      DigitsUnfold(-n, -m, s, t);
    } else {
      DigitsUnfold(n, m, s, t);
    }
  }

  lemma AfterSign(n: int, s: string)
    requires n < 0
    ensures (Decimal(n) + s)[1..] == Digits(-n) + s
  {
  }

  lemma DecimalHead(n: int)
    ensures |Decimal(n)| > 0
    ensures if n < 0 then Decimal(n)[0] == '-' else IsDigit(Decimal(n)[0])
  {
    if n >= 0 { DigitsAreDigits(n); }
  }

  /* ----- strings ----- */

  lemma HexDigitInjective(a: nat, b: nat)
    requires a < 16 && b < 16 && HexDigit(a) == HexDigit(b)
    ensures a == b
  {
  }

  /** The escapes form a prefix code whose words never start with a quote. */
  lemma EscapeCharUnfold(c: char, d: char, s: string, t: string)
    requires EscapeChar(c) + s == EscapeChar(d) + t
    ensures c == d && s == t
  {
    var x, y := EscapeChar(c), EscapeChar(d);
    assert (x + s)[0] == x[0] && (y + t)[0] == y[0];
    if |x| > 1 && |y| > 1 {
      assert (x + s)[1] == x[1] && (y + t)[1] == y[1];
      if |x| == 6 && |y| == 6 {
        assert (x + s)[4] == x[4] && (x + s)[5] == x[5] && (y + t)[4] == y[4] && (y + t)[5] == y[5];
        HexDigitInjective(c as int / 16, d as int / 16);
        HexDigitInjective(c as int % 16, d as int % 16);
      }
    }
    assert c == d;
    assert s == (x + s)[|x|..] && t == (y + t)[|y|..];
  }

  lemma Associate(a: string, b: string, c: string)
    ensures (a + b) + c == a + (b + c)
  {
  }

  /** Encoding works from the front as well as from the back. */
  lemma {:induction false} EncodeFront(code: char -> string, s: string)
    requires s != ""
    ensures Encode(code, s) == code(s[0]) + Encode(code, s[1..])
  {
    if |s| == 1 {
      assert s[..0] == "" && s[1..] == "";
    } else {
      var n := |s| - 1;
      var front, tail := s[..n], s[1..];
      EncodeFront(code, front);
      assert tail[..|tail| - 1] == front[1..];
      Associate(code(s[0]), Encode(code, front[1..]), code(s[n]));
    }
  }

  /** No code word continues another one, and none starts with a quote. */
  ghost predicate PrefixCode(code: char -> string) {
    && (forall c :: |code(c)| > 0 && code(c)[0] != '\"')
    && (forall c, d, s, t :: code(c) + s == code(d) + t ==> c == d && s == t)
  }

  lemma EscapesArePrefixCode()
    ensures PrefixCode(EscapeChar)
  {
    forall c, d, s, t | EscapeChar(c) + s == EscapeChar(d) + t ensures c == d && s == t {
      EscapeCharUnfold(c, d, s, t);
    }
  }

  lemma {:induction false} EncodedUnfold(code: char -> string, x: string, y: string, s: string, t: string)
    requires PrefixCode(code)
    requires Encode(code, x) + ("\"" + s) == Encode(code, y) + ("\"" + t)
    ensures x == y && s == t
    decreases |x|
  {
    var p, q := "\"" + s, "\"" + t;
    var l, r := Encode(code, x) + p, Encode(code, y) + q;
    if x != "" { EncodeFront(code, x); assert l[0] == code(x[0])[0]; }
    if y != "" { EncodeFront(code, y); assert r[0] == code(y[0])[0]; }
    if x == "" || y == "" {
      assert x == "" && y == "";
      assert l[1..] == s && r[1..] == t;
    } else {
      var u, v := Encode(code, x[1..]) + p, Encode(code, y[1..]) + q;
      assert l == code(x[0]) + u && r == code(y[0]) + v;
      EncodedUnfold(code, x[1..], y[1..], s, t);
    }
  }

  lemma QuoteUnfold(x: string, y: string, s: string, t: string)
    requires Quote(x) + s == Quote(y) + t
    ensures x == y && s == t
  {
    assert (Quote(x) + s)[1..] == Escape(x) + ("\"" + s);
    assert (Quote(y) + t)[1..] == Escape(y) + ("\"" + t);
    EscapesArePrefixCode();
    EncodedUnfold(EscapeChar, x, y, s, t);
  }

  /* ----- values ----- */

  /** The first character of a text tells which kind of value it is. */
  predicate Starts(v: Json, c: char) {
    match v
    case Null => c == 'n'
    case Bool(b) => c == if b then 't' else 'f'
    case Num(_) => c == '-' || IsDigit(c)
    case Str(_) => c == '\"'
    case Arr(_) => c == '['
    case Obj(_) => c == '{'
  }

  lemma TextHead(rules: Rules, v: Json)
    ensures |Text(rules, v)| > 0 && Starts(v, Text(rules, v)[0])
  {
    if v.Num? { DecimalHead(v.n.Floor); }
  }

  ghost predicate AllAccepted(rules: Rules, parent: Json, xs: seq<Json>) {
    forall x :: x in xs ==> x < parent && Accepted(rules, x)
  }

  ghost predicate MembersAccepted(rules: Rules, parent: Json, ms: seq<Member>) {
    forall m :: m in ms ==> m.value < parent && Accepted(rules, m.value)
  }

  /** What follows the first item of an array. */
  function AfterItem(rules: Rules, parent: Json, xs: seq<Json>, s: string): string
    requires xs != [] && forall x :: x in xs ==> x < parent
  {
    if |xs| == 1 then "]" + s
    else
      assert forall x :: x in xs[1..] ==> x in xs;
      "," + (Items(rules, parent, xs[1..]) + ("]" + s))
  }

  lemma ItemsSplit(rules: Rules, parent: Json, xs: seq<Json>, s: string)
    requires xs != [] && forall x :: x in xs ==> x < parent
    ensures Items(rules, parent, xs) + ("]" + s) == Text(rules, xs[0]) + AfterItem(rules, parent, xs, s)
  {
  }

  /** What follows the first member of an object. */
  function AfterEntry(rules: Rules, parent: Json, ms: seq<Member>, s: string): string
    requires ms != [] && forall m :: m in ms ==> m.value < parent
  {
    if |ms| == 1 then "}" + s
    else
      assert forall m :: m in ms[1..] ==> m in ms;
      "," + (Entries(rules, parent, ms[1..]) + ("}" + s))
  }

  lemma SplitLast(key: string, text: string, s: string)
    ensures (key + ":" + text) + ("}" + s) == key + (":" + (text + ("}" + s)))
  {
  }

  lemma SplitFirst(key: string, text: string, rest: string, s: string)
    ensures (key + ":" + text + "," + rest) + ("}" + s) == key + (":" + (text + ("," + (rest + ("}" + s)))))
  {
  }

  lemma EntriesSplit(rules: Rules, parent: Json, ms: seq<Member>, s: string)
    requires ms != [] && forall m :: m in ms ==> m.value < parent
    ensures Entries(rules, parent, ms) + ("}" + s)
         == Quote(ms[0].key) + (":" + (Text(rules, ms[0].value) + AfterEntry(rules, parent, ms, s)))
  {
    assert ms[0] in ms && forall m :: m in ms[1..] ==> m in ms;
    if |ms| == 1 {
      SplitLast(Quote(ms[0].key), Text(rules, ms[0].value), s);
    } else {
      SplitFirst(Quote(ms[0].key), Text(rules, ms[0].value), Entries(rules, parent, ms[1..]), s);
    }
  }

  /** An empty list of items or members shows at once. */
  lemma ItemsHead(rules: Rules, parent: Json, xs: seq<Json>, s: string)
    requires forall x :: x in xs ==> x < parent
    ensures var l := Items(rules, parent, xs) + ("]" + s);
            |l| > 0 && (l[0] == ']' <==> xs == []) && (xs == [] ==> l[1..] == s)
  {
    if xs != [] {
      ItemsSplit(rules, parent, xs, s);
      TextHead(rules, xs[0]);
    }
  }

  lemma EntriesHead(rules: Rules, parent: Json, ms: seq<Member>, s: string)
    requires forall m :: m in ms ==> m.value < parent
    ensures var l := Entries(rules, parent, ms) + ("}" + s);
            |l| > 0 && (l[0] == '}' <==> ms == []) && (ms == [] ==> l[1..] == s)
  {
  }

  /** Reading one value off the front of a text gives the value, up to order and normal form, and the rest. */
  lemma {:induction false} TextUnfold(rules: Rules, a: Json, b: Json, s: string, t: string)
    requires Accepted(rules, a) && Accepted(rules, b)
    requires Text(rules, a) + s == Text(rules, b) + t && Closes(s) && Closes(t)
    ensures Same(rules.nfc, a, b) && s == t
    decreases a
  {
    SameKind(rules, a, b, s, t);
    match a
    case Arr(_) => ArrayUnfold(rules, a, b, s, t);
    case Obj(_) => ObjectUnfold(rules, a, b, s, t);
    case _ => ScalarUnfold(rules, a, b, s, t);
  }

  predicate Alike(a: Json, b: Json) {
    && (a.Null? <==> b.Null?) && (a.Bool? <==> b.Bool?) && (a.Num? <==> b.Num?)
    && (a.Str? <==> b.Str?) && (a.Arr? <==> b.Arr?) && (a.Obj? <==> b.Obj?)
    && (a.Bool? && b.Bool? ==> a.b == b.b)
  }

  lemma SameKind(rules: Rules, a: Json, b: Json, s: string, t: string)
    requires Text(rules, a) + s == Text(rules, b) + t
    ensures Alike(a, b)
  {
    TextHead(rules, a);
    TextHead(rules, b);
    assert (Text(rules, a) + s)[0] == Text(rules, a)[0] && (Text(rules, b) + t)[0] == Text(rules, b)[0];
  }

  lemma DropFront(x: string, s: string, t: string)
    requires x + s == x + t
    ensures s == t
  {
    assert s == (x + s)[|x|..] && t == (x + t)[|x|..];
  }

  lemma ScalarUnfold(rules: Rules, a: Json, b: Json, s: string, t: string)
    requires Alike(a, b) && !a.Arr? && !a.Obj? && Accepted(rules, a) && Accepted(rules, b)
    requires Text(rules, a) + s == Text(rules, b) + t && Closes(s) && Closes(t)
    ensures Same(rules.nfc, a, b) && s == t
  {
    match a
    case Num(x) => DecimalUnfold(x.Floor, b.n.Floor, s, t);
    case Str(x) => QuoteUnfold(rules.nfc(x), rules.nfc(b.s), s, t);
    case _ => DropFront(Text(rules, a), s, t);
  }

  lemma {:induction false} ArrayUnfold(rules: Rules, a: Json, b: Json, s: string, t: string)
    requires a.Arr? && b.Arr? && Accepted(rules, a) && Accepted(rules, b)
    requires Text(rules, a) + s == Text(rules, b) + t
    ensures Same(rules.nfc, a, b) && s == t
    decreases a, |a.items| + 1
  {
    var x, y := Items(rules, a, a.items), Items(rules, b, b.items);
    assert (Text(rules, a) + s)[1..] == x + ("]" + s);
    assert (Text(rules, b) + t)[1..] == y + ("]" + t);
    ItemsUnfold(rules, a, a.items, b, b.items, s, t);
  }

  lemma Bracketed(rules: Rules, v: Json, s: string)
    requires v.Obj? && forall m :: m in Ordered(rules, v.members) ==> m.value < v
    ensures Text(rules, v) + s == "{" + (Entries(rules, v, Ordered(rules, v.members)) + ("}" + s))
  {
  }

  lemma {:induction false} ObjectUnfold(rules: Rules, a: Json, b: Json, s: string, t: string)
    requires a.Obj? && b.Obj? && Accepted(rules, a) && Accepted(rules, b)
    requires Text(rules, a) + s == Text(rules, b) + t
    ensures Same(rules.nfc, a, b) && s == t
    decreases a, |Ordered(rules, a.members)| + 1
  {
    var os, ot := Ordered(rules, a.members), Ordered(rules, b.members);
    ObjectAccepted(rules, a);
    ObjectAccepted(rules, b);
    Bracketed(rules, a, s);
    Bracketed(rules, b, t);
    DropFront("{", Entries(rules, a, os) + ("}" + s), Entries(rules, b, ot) + ("}" + t));
    EntriesUnfold(rules, a, os, b, ot, s, t);
    ObjectsSame(rules, a.members, b.members);
  }

  lemma ObjectAccepted(rules: Rules, v: Json)
    requires v.Obj? && Accepted(rules, v)
    ensures MembersAccepted(rules, v, Ordered(rules, v.members))
  {
    OrderedIsSmaller(rules, v);
    forall m | m in Ordered(rules, v.members) ensures Accepted(rules, m.value) {
      OrderedComesFrom(rules, v.members, m);
    }
  }

  lemma {:induction false} ItemsUnfold(rules: Rules, a: Json, xs: seq<Json>, b: Json, ys: seq<Json>, s: string, t: string)
    requires AllAccepted(rules, a, xs) && AllAccepted(rules, b, ys)
    requires Items(rules, a, xs) + ("]" + s) == Items(rules, b, ys) + ("]" + t)
    ensures |xs| == |ys| && s == t && forall i :: 0 <= i < |xs| ==> Same(rules.nfc, xs[i], ys[i])
    decreases a, |xs|
  {
    NoItems(rules, a, xs, b, ys, s, t);
    if xs != [] {
      assert xs[0] in xs && ys[0] in ys;
      ItemsSplit(rules, a, xs, s);
      ItemsSplit(rules, b, ys, t);
      TextUnfold(rules, xs[0], ys[0], AfterItem(rules, a, xs, s), AfterItem(rules, b, ys, t));
      RestOfItems(rules, a, xs, b, ys, s, t);
      if |xs| > 1 {
        assert (forall x :: x in xs[1..] ==> x in xs) && (forall y :: y in ys[1..] ==> y in ys);
        ItemsUnfold(rules, a, xs[1..], b, ys[1..], s, t);
      }
    }
  }

  lemma NoItems(rules: Rules, a: Json, xs: seq<Json>, b: Json, ys: seq<Json>, s: string, t: string)
    requires (forall x :: x in xs ==> x < a) && (forall y :: y in ys ==> y < b)
    requires Items(rules, a, xs) + ("]" + s) == Items(rules, b, ys) + ("]" + t)
    ensures (xs == [] <==> ys == []) && (xs == [] ==> s == t)
  {
    ItemsHead(rules, a, xs, s);
    ItemsHead(rules, b, ys, t);
  }

  lemma RestOfItems(rules: Rules, a: Json, xs: seq<Json>, b: Json, ys: seq<Json>, s: string, t: string)
    requires xs != [] && (forall x :: x in xs ==> x < a)
    requires ys != [] && (forall y :: y in ys ==> y < b)
    requires AfterItem(rules, a, xs, s) == AfterItem(rules, b, ys, t)
    ensures |xs| == 1 <==> |ys| == 1
    ensures |xs| == 1 ==> s == t
    ensures |xs| > 1 ==>
              && (forall x :: x in xs[1..] ==> x < a) && (forall y :: y in ys[1..] ==> y < b)
              && Items(rules, a, xs[1..]) + ("]" + s) == Items(rules, b, ys[1..]) + ("]" + t)
  {
    var p, q := AfterItem(rules, a, xs, s), AfterItem(rules, b, ys, t);
    assert (forall x :: x in xs[1..] ==> x in xs) && (forall y :: y in ys[1..] ==> y in ys);
    assert p[0] == q[0];
    if |xs| == 1 {
      DropFront("]", s, t);
    } else {
      DropFront(",", Items(rules, a, xs[1..]) + ("]" + s), Items(rules, b, ys[1..]) + ("]" + t));
    }
  }

  lemma {:induction false} EntriesUnfold(rules: Rules, a: Json, ms: seq<Member>, b: Json, ns: seq<Member>, s: string, t: string)
    requires MembersAccepted(rules, a, ms) && MembersAccepted(rules, b, ns)
    requires Entries(rules, a, ms) + ("}" + s) == Entries(rules, b, ns) + ("}" + t)
    ensures Agree(rules.nfc, ms, ns) && s == t
    decreases a, |ms|
  {
    NoEntries(rules, a, ms, b, ns, s, t);
    if ms != [] {
      assert ms[0] in ms && ns[0] in ns;
      var p, q := AfterEntry(rules, a, ms, s), AfterEntry(rules, b, ns, t);
      FirstEntry(rules, a, ms, b, ns, s, t);
      TextUnfold(rules, ms[0].value, ns[0].value, p, q);
      RestOfEntries(rules, a, ms, b, ns, s, t);
      TailAccepted(rules, a, ms);
      TailAccepted(rules, b, ns);
      if |ms| > 1 { EntriesUnfold(rules, a, ms[1..], b, ns[1..], s, t); }
      AgreeFront(rules.nfc, ms, ns);
    }
  }

  lemma TailAccepted(rules: Rules, a: Json, ms: seq<Member>)
    requires ms != [] && MembersAccepted(rules, a, ms)
    ensures MembersAccepted(rules, a, ms[1..])
  {
  }

  lemma AgreeFront(nfc: string -> string, ms: seq<Member>, ns: seq<Member>)
    requires ms != [] && ns != [] && ms[0].key == ns[0].key && Same(nfc, ms[0].value, ns[0].value)
    requires Agree(nfc, ms[1..], ns[1..])
    ensures Agree(nfc, ms, ns)
  {
  }

  lemma NoEntries(rules: Rules, a: Json, ms: seq<Member>, b: Json, ns: seq<Member>, s: string, t: string)
    requires (forall m :: m in ms ==> m.value < a) && (forall n :: n in ns ==> n.value < b)
    requires Entries(rules, a, ms) + ("}" + s) == Entries(rules, b, ns) + ("}" + t)
    ensures (ms == [] <==> ns == []) && (ms == [] ==> s == t)
  {
    EntriesHead(rules, a, ms, s);
    EntriesHead(rules, b, ns, t);
  }

  lemma FirstEntry(rules: Rules, a: Json, ms: seq<Member>, b: Json, ns: seq<Member>, s: string, t: string)
    requires ms != [] && (forall m :: m in ms ==> m.value < a)
    requires ns != [] && (forall n :: n in ns ==> n.value < b)
    requires Entries(rules, a, ms) + ("}" + s) == Entries(rules, b, ns) + ("}" + t)
    ensures ms[0].key == ns[0].key
    ensures Text(rules, ms[0].value) + AfterEntry(rules, a, ms, s) == Text(rules, ns[0].value) + AfterEntry(rules, b, ns, t)
  {
    EntriesSplit(rules, a, ms, s);
    EntriesSplit(rules, b, ns, t);
    var u := Text(rules, ms[0].value) + AfterEntry(rules, a, ms, s);
    var v := Text(rules, ns[0].value) + AfterEntry(rules, b, ns, t);
    QuoteUnfold(ms[0].key, ns[0].key, ":" + u, ":" + v);
    DropFront(":", u, v);
  }

  lemma RestOfEntries(rules: Rules, a: Json, ms: seq<Member>, b: Json, ns: seq<Member>, s: string, t: string)
    requires ms != [] && (forall m :: m in ms ==> m.value < a)
    requires ns != [] && (forall n :: n in ns ==> n.value < b)
    requires AfterEntry(rules, a, ms, s) == AfterEntry(rules, b, ns, t)
    ensures |ms| == 1 <==> |ns| == 1
    ensures |ms| == 1 ==> s == t
    ensures |ms| > 1 ==>
              && (forall m :: m in ms[1..] ==> m.value < a) && (forall n :: n in ns[1..] ==> n.value < b)
              && Entries(rules, a, ms[1..]) + ("}" + s) == Entries(rules, b, ns[1..]) + ("}" + t)
  {
    var p, q := AfterEntry(rules, a, ms, s), AfterEntry(rules, b, ns, t);
    assert (forall m :: m in ms[1..] ==> m in ms) && (forall n :: n in ns[1..] ==> n in ns);
    assert p[0] == q[0];
    if |ms| == 1 {
      DropFront("}", s, t);
    } else {
      DropFront(",", Entries(rules, a, ms[1..]) + ("}" + s), Entries(rules, b, ns[1..]) + ("}" + t));
    }
  }

  ghost predicate Agree(nfc: string -> string, os: seq<Member>, ot: seq<Member>) {
    |os| == |ot| && forall k :: 0 <= k < |os| ==> os[k].key == ot[k].key && Same(nfc, os[k].value, ot[k].value)
  }

  ghost predicate Matched(nfc: string -> string, m: Member, ns: seq<Member>) {
    exists j :: 0 <= j < |ns| && nfc(m.key) == nfc(ns[j].key) && Same(nfc, m.value, ns[j].value)
  }

  lemma MemberMatched(rules: Rules, ms: seq<Member>, ns: seq<Member>, i: nat)
    requires i < |ms| && Agree(rules.nfc, Ordered(rules, ms), Ordered(rules, ns))
    ensures Matched(rules.nfc, ms[i], ns)
  {
    var os, ot := Ordered(rules, ms), Ordered(rules, ns);
    OrderedKeeps(rules, ms, i);
    var k :| 0 <= k < |os| && os[k] == Member(rules.nfc(ms[i].key), ms[i].value);
    OrderedComesFrom(rules, ns, ot[k]);
  }

  lemma OrderedLength(rules: Rules, ms: seq<Member>)
    ensures |Ordered(rules, ms)| == |ms|
  {
    assert |Ordered(rules, ms)| == |multiset(Ordered(rules, ms))|;
  }

  /** Sorted entries that agree one by one come from objects that agree up to order. */
  lemma ObjectsSame(rules: Rules, ms: seq<Member>, ns: seq<Member>)
    requires Agree(rules.nfc, Ordered(rules, ms), Ordered(rules, ns))
    ensures Same(rules.nfc, Obj(ms), Obj(ns))
  {
    OrderedLength(rules, ms);
    OrderedLength(rules, ns);
    forall i | 0 <= i < |ms| ensures Matched(rules.nfc, ms[i], ns) {
      MemberMatched(rules, ms, ns, i);
    }
  }

  /* ----- the other direction: sorting forgets the order of members ----- */

  ghost predicate StrictlySorted(leq: (string, string) -> bool, ms: seq<Member>) {
    forall i, j :: 0 <= i < j < |ms| ==> leq(ms[i].key, ms[j].key) && ms[i].key != ms[j].key
  }

  ghost predicate SortedBy(leq: (string, string) -> bool, ms: seq<Member>) {
    forall i, j :: 0 <= i < j < |ms| ==> leq(ms[i].key, ms[j].key)
  }

  lemma {:induction false} InsertSorted(leq: (string, string) -> bool, m: Member, sorted: seq<Member>)
    requires TotalOrder(leq) && SortedBy(leq, sorted)
    ensures SortedBy(leq, Insert(leq, m, sorted))
  {
    if sorted != [] && !leq(m.key, sorted[0].key) {
      var rest := Insert(leq, m, sorted[1..]);
      InsertSorted(leq, m, sorted[1..]);
      forall x | x in rest ensures leq(sorted[0].key, x.key) {
        assert x in multiset(rest);
        assert x == m || x in sorted[1..];
      }
    }
  }

  lemma {:induction false} SortSorts(leq: (string, string) -> bool, ms: seq<Member>)
    requires TotalOrder(leq)
    ensures SortedBy(leq, Sort(leq, ms))
  {
    if ms != [] {
      SortSorts(leq, ms[1..]);
      InsertSorted(leq, ms[0], Sort(leq, ms[1..]));
    }
  }

  ghost function KeySet(ms: seq<Member>): set<string> { set m | m in ms :: m.key }

  lemma KeySetSplit(ms: seq<Member>)
    requires ms != []
    ensures KeySet(ms) == {ms[0].key} + KeySet(ms[1..])
  {
  }

  lemma RepeatedKey(ms: seq<Member>)
    requires ms != [] && ms[0].key in KeySet(ms[1..])
    ensures !DistinctKeys(ms)
  {
  }

  lemma NewKey(ms: seq<Member>)
    requires ms != [] && ms[0].key !in KeySet(ms[1..]) && DistinctKeys(ms[1..])
    ensures DistinctKeys(ms)
  {
  }

  lemma DistinctTail(ms: seq<Member>)
    requires ms != [] && DistinctKeys(ms)
    ensures DistinctKeys(ms[1..])
  {
  }

  /** A rearrangement of members with distinct keys has distinct keys. */
  lemma {:induction false} KeysCount(ms: seq<Member>)
    ensures |KeySet(ms)| <= |ms|
    ensures |KeySet(ms)| == |ms| <==> DistinctKeys(ms)
  {
    if ms == [] {
      assert KeySet(ms) == {};
    } else {
      KeysCount(ms[1..]);
      KeySetSplit(ms);
      if ms[0].key in KeySet(ms[1..]) {
        assert KeySet(ms) == KeySet(ms[1..]);
        RepeatedKey(ms);
      } else if DistinctKeys(ms[1..]) {
        NewKey(ms);
      } else if DistinctKeys(ms) {
        DistinctTail(ms);
      }
    }
  }

  lemma Rearranged(a: seq<Member>, b: seq<Member>)
    requires multiset(a) == multiset(b)
    ensures |a| == |b| && KeySet(a) == KeySet(b)
  {
    assert |a| == |multiset(a)| && |b| == |multiset(b)|;
    assert forall m :: m in a <==> m in multiset(a);
    assert forall m :: m in b <==> m in multiset(b);
  }

  lemma OrderedStrictly(rules: Rules, ms: seq<Member>)
    requires TotalOrder(rules.leq) && DistinctKeys(Normalized(rules.nfc, ms))
    ensures StrictlySorted(rules.leq, Ordered(rules, ms)) && |Ordered(rules, ms)| == |ms|
  {
    var normal, sorted := Normalized(rules.nfc, ms), Ordered(rules, ms);
    SortSorts(rules.leq, normal);
    Rearranged(sorted, normal);
    KeysCount(normal);
    KeysCount(sorted);
  }

  /** Two strictly sorted lists with the same keys have them in the same places. */
  lemma {:induction false} SortedKeysCoincide(leq: (string, string) -> bool, os: seq<Member>, ot: seq<Member>)
    requires TotalOrder(leq) && StrictlySorted(leq, os) && StrictlySorted(leq, ot)
    requires KeySet(os) == KeySet(ot) && |os| == |ot|
    ensures forall k :: 0 <= k < |os| ==> os[k].key == ot[k].key
  {
    if os != [] {
      assert os[0].key in KeySet(os) && ot[0].key in KeySet(ot);
      var i :| 0 <= i < |ot| && ot[i].key == os[0].key;
      var j :| 0 <= j < |os| && os[j].key == ot[0].key;
      assert os[0].key == ot[0].key;
      TailKeys(leq, os);
      TailKeys(leq, ot);
      SortedKeysCoincide(leq, os[1..], ot[1..]);
      forall k | 0 <= k < |os| ensures os[k].key == ot[k].key {
        if k > 0 { assert os[1..][k - 1].key == ot[1..][k - 1].key; }
      }
    }
  }

  lemma TailKeys(leq: (string, string) -> bool, ms: seq<Member>)
    requires ms != [] && StrictlySorted(leq, ms)
    ensures KeySet(ms[1..]) == KeySet(ms) - {ms[0].key} && StrictlySorted(leq, ms[1..])
  {
  }

  ghost predicate HasCounterpart(nfc: string -> string, m: Member, ot: seq<Member>) {
    exists j :: 0 <= j < |ot| && m.key == ot[j].key && Same(nfc, m.value, ot[j].value)
  }

  lemma CounterpartKeys(nfc: string -> string, os: seq<Member>, ot: seq<Member>)
    requires |os| == |ot| && DistinctKeys(os) && DistinctKeys(ot)
    requires forall m :: m in os ==> HasCounterpart(nfc, m, ot)
    ensures KeySet(os) == KeySet(ot)
  {
    forall m | m in os ensures m.key in KeySet(ot) {
      assert HasCounterpart(nfc, m, ot);
    }
    KeysCount(os);
    KeysCount(ot);
    SameSize(KeySet(os), KeySet(ot));
  }

  lemma ListsAgree(nfc: string -> string, leq: (string, string) -> bool, os: seq<Member>, ot: seq<Member>)
    requires TotalOrder(leq) && StrictlySorted(leq, os) && StrictlySorted(leq, ot) && |os| == |ot|
    requires forall m :: m in os ==> HasCounterpart(nfc, m, ot)
    ensures Agree(nfc, os, ot)
  {
    CounterpartKeys(nfc, os, ot);
    SortedKeysCoincide(leq, os, ot);
    forall k | 0 <= k < |os| ensures Same(nfc, os[k].value, ot[k].value) {
      assert HasCounterpart(nfc, os[k], ot);
      var j :| 0 <= j < |ot| && os[k].key == ot[j].key && Same(nfc, os[k].value, ot[j].value);
      assert ot[k].key == ot[j].key;
    }
  }

  /** Objects that agree up to order have entries that agree one by one once sorted. */
  lemma OrderedAgree(rules: Rules, ms: seq<Member>, ns: seq<Member>)
    requires TotalOrder(rules.leq) && Same(rules.nfc, Obj(ms), Obj(ns))
    requires DistinctKeys(Normalized(rules.nfc, ms)) && DistinctKeys(Normalized(rules.nfc, ns))
    ensures Agree(rules.nfc, Ordered(rules, ms), Ordered(rules, ns))
  {
    var os, ot := Ordered(rules, ms), Ordered(rules, ns);
    OrderedStrictly(rules, ms);
    OrderedStrictly(rules, ns);
    forall m | m in os ensures HasCounterpart(rules.nfc, m, ot) {
      Counterpart(rules, ms, ns, m);
    }
    ListsAgree(rules.nfc, rules.leq, os, ot);
  }

  lemma Counterpart(rules: Rules, ms: seq<Member>, ns: seq<Member>, m: Member)
    requires Same(rules.nfc, Obj(ms), Obj(ns)) && m in Ordered(rules, ms)
    ensures HasCounterpart(rules.nfc, m, Ordered(rules, ns))
  {
    OrderedComesFrom(rules, ms, m);
    var i :| 0 <= i < |ms| && m == Member(rules.nfc(ms[i].key), ms[i].value);
    var j :| 0 <= j < |ns| && rules.nfc(ms[i].key) == rules.nfc(ns[j].key) && Same(rules.nfc, ms[i].value, ns[j].value);
    OrderedKeeps(rules, ns, j);
  }

  lemma SameSize(a: set<string>, b: set<string>)
    requires a <= b && |a| == |b|
    ensures a == b
  {
    assert |b - a| == |b| - |a|;
  }

  /** Values that agree up to order and normal form have the same text. */
  lemma {:induction false} SameText(rules: Rules, a: Json, b: Json)
    requires TotalOrder(rules.leq) && Accepted(rules, a) && Accepted(rules, b) && Same(rules.nfc, a, b)
    ensures Text(rules, a) == Text(rules, b)
    decreases a
  {
    match a
    case Arr(xs) => SameItems(rules, a, xs, b, b.items);
    case Obj(ms) =>
      ObjectAccepted(rules, a);
      ObjectAccepted(rules, b);
      OrderedAgree(rules, ms, b.members);
      SameEntries(rules, a, Ordered(rules, ms), b, Ordered(rules, b.members));
    case _ =>
  }

  lemma {:induction false} SameItems(rules: Rules, a: Json, xs: seq<Json>, b: Json, ys: seq<Json>)
    requires TotalOrder(rules.leq) && AllAccepted(rules, a, xs) && AllAccepted(rules, b, ys)
    requires |xs| == |ys| && forall i :: 0 <= i < |xs| ==> Same(rules.nfc, xs[i], ys[i])
    ensures Items(rules, a, xs) == Items(rules, b, ys)
    decreases a, |xs|
  {
    if xs != [] {
      assert xs[0] in xs && ys[0] in ys;
      SameText(rules, xs[0], ys[0]);
      assert (forall x :: x in xs[1..] ==> x in xs) && (forall y :: y in ys[1..] ==> y in ys);
      SameItems(rules, a, xs[1..], b, ys[1..]);
    }
  }

  lemma {:induction false} SameEntries(rules: Rules, a: Json, ms: seq<Member>, b: Json, ns: seq<Member>)
    requires TotalOrder(rules.leq) && MembersAccepted(rules, a, ms) && MembersAccepted(rules, b, ns)
    requires Agree(rules.nfc, ms, ns)
    ensures Entries(rules, a, ms) == Entries(rules, b, ns)
    decreases a, |ms|
  {
    if ms != [] {
      assert ms[0] in ms && ns[0] in ns;
      SameText(rules, ms[0].value, ns[0].value);
      assert Entry(rules, a, ms[0]) == Entry(rules, b, ns[0]);
      if |ms| > 1 {
        TailsAgree(rules, a, ms, b, ns);
        SameEntries(rules, a, ms[1..], b, ns[1..]);
      }
    }
  }

  lemma TailsAgree(rules: Rules, a: Json, ms: seq<Member>, b: Json, ns: seq<Member>)
    requires MembersAccepted(rules, a, ms) && MembersAccepted(rules, b, ns) && Agree(rules.nfc, ms, ns) && ms != []
    ensures MembersAccepted(rules, a, ms[1..]) && MembersAccepted(rules, b, ns[1..])
    ensures Agree(rules.nfc, ms[1..], ns[1..])
  {
  }

  /* ----- the result ----- */

  /** Comparing texts decides, exactly, whether two accepted values are the same. */
  lemma TextDecides(rules: Rules, a: Json, b: Json)
    requires TotalOrder(rules.leq) && Accepted(rules, a) && Accepted(rules, b)
    ensures Text(rules, a) == Text(rules, b) <==> Same(rules.nfc, a, b)
  {
    if Same(rules.nfc, a, b) { SameText(rules, a, b); }
    if Text(rules, a) == Text(rules, b) {
      assert Text(rules, a) + "" == Text(rules, b) + "";
      TextUnfold(rules, a, b, "", "");
    }
  }

  /** A value that is encoded at all shares its text with exactly the accepted values that are the same. */
  lemma CanonicalizeDecides(rules: Rules, a: Json, b: Json)
    requires TotalOrder(rules.leq) && Canonicalize(rules, a).Some?
    ensures Canonicalize(rules, a) == Canonicalize(rules, b) <==> Accepted(rules, b) && Same(rules.nfc, a, b)
  {
    if Accepted(rules, b) { TextDecides(rules, a, b); }
  }

  /** Comparing fingerprints decides the same, the digest being injective. */
  lemma FingerprintDecides(rules: Rules, sha: string -> string, a: Json, b: Json)
    requires TotalOrder(rules.leq) && Accepted(rules, a) && Accepted(rules, b)
    requires forall x, y :: sha(x) == sha(y) ==> x == y
    ensures sha(Text(rules, a)) == sha(Text(rules, b)) <==> Same(rules.nfc, a, b)
  {
    TextDecides(rules, a, b);
  }
}
