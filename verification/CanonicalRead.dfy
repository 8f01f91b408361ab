/**
 A reader of JSON after RFC 8259, written without regard to the encoder, reads every canonical text back: the text
 is JSON, and it means the value that was encoded.
 */
module CanonicalRead {
  import opened Options
  import opened CanonicalJson
  import opened CanonicalInjective

  /** What was read, and what follows it. */
  datatype Found<+T> = Found(value: T, rest: string)

  /* ----- strings: section 7 of RFC 8259 ----- */

  function HexValue(c: char): Option<nat> {
    if '0' <= c <= '9' then Some(c as int - '0' as int)
    else if 'a' <= c <= 'f' then Some(c as int - 'a' as int + 10)
    else if 'A' <= c <= 'F' then Some(c as int - 'A' as int + 10)
    else None
  }

  /** The scalar that four hexadecimal digits name. */
  function HexScalar(s: string): Option<char>
    requires |s| == 4
  {
    var a, b, c, d := HexValue(s[0]), HexValue(s[1]), HexValue(s[2]), HexValue(s[3]);
    if a.None? || b.None? || c.None? || d.None? then None
    else
      var n := a.value * 4096 + b.value * 256 + c.value * 16 + d.value;
      if n < 0xD800 || 0xDFFF < n < 0x10000 then Some(n as char) else None
  }

  function ReadEscape(s: string): Option<Found<char>> {
    if s == "" then None
    else if s[0] == '\"' || s[0] == '\\' || s[0] == '/' then Some(Found(s[0], s[1..]))
    else if s[0] == 'b' then Some(Found(8 as char, s[1..]))
    else if s[0] == 'f' then Some(Found(12 as char, s[1..]))
    else if s[0] == 'n' then Some(Found('\n', s[1..]))
    else if s[0] == 'r' then Some(Found('\r', s[1..]))
    else if s[0] == 't' then Some(Found('\t', s[1..]))
    else if s[0] == 'u' && |s| >= 5 && HexScalar(s[1..5]).Some? then Some(Found(HexScalar(s[1..5]).value, s[5..]))
    else None
  }

  /** One character of a string; a quote ends it and control characters have to be escaped. */
  function ReadChar(s: string): Option<Found<char>> {
    if s == "" || s[0] == '\"' || s[0] as int < 0x20 then None
    else if s[0] == '\\' then ReadEscape(s[1..])
    else Some(Found(s[0], s[1..]))
  }

  /** The rest of a string, up to and with the closing quote. */
  function ReadString(s: string): (r: Option<Found<string>>)
    ensures r.Some? ==> |r.value.rest| < |s|
    decreases |s|
  {
    if s == "" then None
    else if s[0] == '\"' then Some(Found("", s[1..]))
    else
      var c := ReadChar(s);
      if c.None? then None
      else
        var more := ReadString(c.value.rest);
        if more.None? then None else Some(Found([c.value.value] + more.value.value, more.value.rest))
  }

  lemma HexBack(d: nat)
    requires d < 16
    ensures HexValue(HexDigit(d)) == Some(d)
  {
  }

  lemma CharBack(c: char, rest: string)
    ensures ReadChar(EscapeChar(c) + rest) == Some(Found(c, rest))
  {
    var w := EscapeChar(c);
    assert (w + rest)[|w|..] == rest;
    if w[0] == '\\' {
      assert (w + rest)[1..] == w[1..] + rest;
      if |w| == 2 {
        assert (w[1..] + rest)[1..] == rest;
      } else {
        ControlBack(c, rest);
      }
    }
  }

  lemma ControlBack(c: char, rest: string)
    requires |EscapeChar(c)| == 6
    ensures ReadEscape(EscapeChar(c)[1..] + rest) == Some(Found(c, rest))
  {
    var w := EscapeChar(c)[1..] + rest;
    HexBack(c as int / 16);
    HexBack(c as int % 16);
    assert w[1..5] == "00" + [HexDigit(c as int / 16), HexDigit(c as int % 16)];
    assert w[5..] == rest;
  }

  lemma {:induction false} StringBack(s: string, rest: string)
    ensures ReadString(Escape(s) + ("\"" + rest)) == Some(Found(s, rest))
    decreases |s|
  {
    var close := "\"" + rest;
    if s == "" {
      assert Escape(s) + close == close && close[1..] == rest;
    } else {
      EncodeFront(EscapeChar, s);
      Associate(EscapeChar(s[0]), Escape(s[1..]), close);
      CharBack(s[0], Escape(s[1..]) + close);
      StringBack(s[1..], rest);
      assert [s[0]] + s[1..] == s;
      var w := EscapeChar(s[0]);
      assert (w + (Escape(s[1..]) + close))[0] == w[0];
    }
  }

  /* ----- numbers: section 6 of RFC 8259, integers only ----- */

  function DigitPrefix(s: string): (n: nat)
    ensures n <= |s| && forall i :: 0 <= i < n ==> IsDigit(s[i])
  {
    if s == "" || !IsDigit(s[0]) then 0 else 1 + DigitPrefix(s[1..])
  }

  function ValueOf(digits: string): int
    requires forall i :: 0 <= i < |digits| ==> IsDigit(digits[i])
  {
    if digits == "" then 0
    else ValueOf(digits[..|digits| - 1]) * 10 + (digits[|digits| - 1] as int - '0' as int)
  }

  /** Digits without a leading zero. */
  function ReadNatural(s: string): (r: Option<Found<int>>)
    ensures r.Some? ==> |r.value.rest| < |s|
  {
    var n := DigitPrefix(s);
    if n == 0 || (n > 1 && s[0] == '0') then None else Some(Found(ValueOf(s[..n]), s[n..]))
  }

  function ReadInteger(s: string): (r: Option<Found<int>>)
    ensures r.Some? ==> |r.value.rest| < |s|
  {
    if s != "" && s[0] == '-' then
      var r := ReadNatural(s[1..]);
      if r.None? then None else Some(Found(-r.value.value, r.value.rest))
    else ReadNatural(s)
  }

  lemma {:induction false} PrefixIs(digits: string, rest: string)
    requires (forall i :: 0 <= i < |digits| ==> IsDigit(digits[i])) && (rest == "" || !IsDigit(rest[0]))
    ensures DigitPrefix(digits + rest) == |digits|
    decreases |digits|
  {
    if digits == "" {
      assert digits + rest == rest;
    } else {
      assert (digits + rest)[1..] == digits[1..] + rest;
      PrefixIs(digits[1..], rest);
    }
  }

  lemma {:induction false} DigitsMean(n: nat)
    ensures (forall i :: 0 <= i < |Digits(n)| ==> IsDigit(Digits(n)[i])) && ValueOf(Digits(n)) == n
    ensures |Digits(n)| > 0 && (Digits(n)[0] == '0' ==> n == 0)
  {
    if n >= 10 {
      DigitsMean(n / 10);
      var d := Digits(n);
      assert d[..|d| - 1] == Digits(n / 10);
    }
  }

  lemma NaturalBack(n: nat, rest: string)
    requires Closes(rest)
    ensures ReadNatural(Digits(n) + rest) == Some(Found(n as int, rest))
  {
    var d := Digits(n);
    DigitsMean(n);
    PrefixIs(d, rest);
    assert (d + rest)[..|d|] == d && (d + rest)[|d|..] == rest;
  }

  lemma IntegerBack(n: int, rest: string)
    requires Closes(rest)
    ensures ReadInteger(Decimal(n) + rest) == Some(Found(n, rest))
  {
    DecimalHead(n);
    if n < 0 {
      AfterSign(n, rest);
      NaturalBack(-n, rest);
    } else {
      NaturalBack(n, rest);
    }
  }

  /* ----- values: sections 3 to 5 of RFC 8259, without insignificant white space ----- */

  predicate Begins(s: string, word: string) { |word| <= |s| && s[..|word|] == word }

  function ReadValue(s: string): (r: Option<Found<Json>>)
    ensures r.Some? ==> |r.value.rest| < |s|
    decreases |s|, 0
  {
    if s == "" then None
    else if s[0] == '\"' then
      var r := ReadString(s[1..]);
      if r.None? then None else Some(Found(Str(r.value.value), r.value.rest))
    else if s[0] == '[' then ReadArray(s)
    else if s[0] == '{' then ReadObject(s)
    else if s[0] == '-' || IsDigit(s[0]) then
      var r := ReadInteger(s);
      if r.None? then None else Some(Found(Num(r.value.value as real), r.value.rest))
    else ReadWord(s)
  }

  function ReadWord(s: string): (r: Option<Found<Json>>)
    ensures r.Some? ==> |r.value.rest| < |s|
  {
    if Begins(s, "null") then Some(Found(Null, s[4..]))
    else if Begins(s, "true") then Some(Found(Bool(true), s[4..]))
    else if Begins(s, "false") then Some(Found(Bool(false), s[5..]))
    else None
  }

  function ReadArray(s: string): (r: Option<Found<Json>>)
    requires s != ""
    ensures r.Some? ==> |r.value.rest| < |s|
    decreases |s| - 1, 3
  {
    if |s| > 1 && s[1] == ']' then Some(Found(Arr([]), s[2..]))
    else
      var r := ReadItems(s[1..]);
      if r.None? then None else Some(Found(Arr(r.value.value), r.value.rest))
  }

  function ReadObject(s: string): (r: Option<Found<Json>>)
    requires s != ""
    ensures r.Some? ==> |r.value.rest| < |s|
    decreases |s| - 1, 3
  {
    if |s| > 1 && s[1] == '}' then Some(Found(Obj([]), s[2..]))
    else
      var r := ReadMembers(s[1..]);
      if r.None? then None else Some(Found(Obj(r.value.value), r.value.rest))
  }

  /** One or more items and the closing bracket. */
  function ReadItems(s: string): (r: Option<Found<seq<Json>>>)
    ensures r.Some? ==> |r.value.rest| < |s|
    decreases |s|, 1
  {
    var first := ReadValue(s);
    if first.None? || first.value.rest == "" then None
    else if first.value.rest[0] == ']' then Some(Found([first.value.value], first.value.rest[1..]))
    else if first.value.rest[0] == ',' then
      var more := ReadItems(first.value.rest[1..]);
      if more.None? then None else Some(Found([first.value.value] + more.value.value, more.value.rest))
    else None
  }

  function ReadMember(s: string): (r: Option<Found<Member>>)
    ensures r.Some? ==> |r.value.rest| < |s|
    decreases |s|, 1
  {
    if s == "" || s[0] != '\"' then None
    else
      var key := ReadString(s[1..]);
      if key.None? || key.value.rest == "" || key.value.rest[0] != ':' then None
      else
        var v := ReadValue(key.value.rest[1..]);
        if v.None? then None else Some(Found(Member(key.value.value, v.value.value), v.value.rest))
  }

  /** One or more members and the closing brace. */
  function ReadMembers(s: string): (r: Option<Found<seq<Member>>>)
    ensures r.Some? ==> |r.value.rest| < |s|
    decreases |s|, 2
  {
    var first := ReadMember(s);
    if first.None? || first.value.rest == "" then None
    else if first.value.rest[0] == '}' then Some(Found([first.value.value], first.value.rest[1..]))
    else if first.value.rest[0] == ',' then
      var more := ReadMembers(first.value.rest[1..]);
      if more.None? then None else Some(Found([first.value.value] + more.value.value, more.value.rest))
    else None
  }

  /* ----- every canonical text is read back ----- */

  ghost predicate Idempotent(nfc: string -> string) { forall s :: nfc(nfc(s)) == nfc(s) }

  /** The text, and whatever follows, reads as `v` up to member order and normal form. */
  ghost predicate Means(rules: Rules, r: Option<Found<Json>>, v: Json, rest: string) {
    r.Some? && r.value.rest == rest && Same(rules.nfc, v, r.value.value)
  }

  ghost predicate MeanItems(rules: Rules, r: Option<Found<seq<Json>>>, xs: seq<Json>, rest: string) {
    && r.Some? && r.value.rest == rest && |r.value.value| == |xs|
    && forall i :: 0 <= i < |xs| ==> Same(rules.nfc, xs[i], r.value.value[i])
  }

  ghost predicate MeanMembers(rules: Rules, r: Option<Found<seq<Member>>>, ms: seq<Member>, rest: string) {
    && r.Some? && r.value.rest == rest && |r.value.value| == |ms|
    && forall i :: 0 <= i < |ms| ==> r.value.value[i].key == ms[i].key && Same(rules.nfc, ms[i].value, r.value.value[i].value)
  }

  /** A canonical text reads back as the value that was encoded, up to member order and normal form. */
  lemma {:induction false} ReadsBack(rules: Rules, v: Json, rest: string)
    requires Idempotent(rules.nfc) && Accepted(rules, v) && Closes(rest)
    ensures Means(rules, ReadValue(Text(rules, v) + rest), v, rest)
    decreases v
  {
    var s := Text(rules, v) + rest;
    TextHead(rules, v);
    assert s[0] == Text(rules, v)[0];
    match v
    case Arr(_) => ArrayBack(rules, v, rest);
    case Obj(_) => ObjectBack(rules, v, rest);
    case _ => ScalarBack(rules, v, rest);
  }

  lemma ScalarBack(rules: Rules, v: Json, rest: string)
    requires Idempotent(rules.nfc) && Accepted(rules, v) && Closes(rest) && !v.Arr? && !v.Obj?
    ensures Means(rules, ReadValue(Text(rules, v) + rest), v, rest)
  {
    match v
    case Num(n) => NumberBack(rules, n, rest);
    case Str(x) => QuotedBack(rules, x, rest);
    case _ => WordBack(rules, v, rest);
  }

  lemma WordBack(rules: Rules, v: Json, rest: string)
    requires v.Null? || v.Bool?
    ensures Means(rules, ReadValue(Text(rules, v) + rest), v, rest)
  {
    var w := Text(rules, v);
    assert (w + rest)[..|w|] == w && (w + rest)[|w|..] == rest && (w + rest)[0] == w[0];
    assert w == "false" ==> !Begins(w + rest, "null") && !Begins(w + rest, "true") by {
      assert Begins(w + rest, "null") ==> (w + rest)[..4][0] == 'n';
      assert Begins(w + rest, "true") ==> (w + rest)[..4][0] == 't';
    }
    assert w == "true" ==> !Begins(w + rest, "null");
  }

  lemma NumberBack(rules: Rules, n: real, rest: string)
    requires SafeInteger(n) && Closes(rest)
    ensures Means(rules, ReadValue(Text(rules, Num(n)) + rest), Num(n), rest)
  {
    IntegerBack(n.Floor, rest);
    DecimalHead(n.Floor);
    assert (Decimal(n.Floor) + rest)[0] == Decimal(n.Floor)[0];
  }

  lemma QuotedBack(rules: Rules, x: string, rest: string)
    requires Idempotent(rules.nfc)
    ensures Means(rules, ReadValue(Text(rules, Str(x)) + rest), Str(x), rest)
  {
    var s := Text(rules, Str(x)) + rest;
    assert s[0] == '\"' && s[1..] == Escape(rules.nfc(x)) + ("\"" + rest);
    StringBack(rules.nfc(x), rest);
    assert ReadValue(s) == Some(Found(Str(rules.nfc(x)), rest));
  }

  lemma {:induction false} ArrayBack(rules: Rules, v: Json, rest: string)
    requires Idempotent(rules.nfc) && Accepted(rules, v) && v.Arr?
    ensures Means(rules, ReadValue(Text(rules, v) + rest), v, rest)
    decreases v, |v.items| + 1
  {
    var s := Text(rules, v) + rest;
    assert s[0] == '[' && s[1..] == Items(rules, v, v.items) + ("]" + rest) && s[1] == s[1..][0];
    ItemsHead(rules, v, v.items, rest);
    assert ReadValue(s) == ReadArray(s);
    if v.items == [] {
      assert s[2..] == s[1..][1..];
    } else {
      ItemsBack(rules, v, v.items, rest);
      var items := ReadItems(s[1..]).value.value;
      assert ReadArray(s) == Some(Found(Arr(items), rest));
    }
  }

  lemma {:induction false} ItemsBack(rules: Rules, parent: Json, xs: seq<Json>, rest: string)
    requires Idempotent(rules.nfc) && AllAccepted(rules, parent, xs) && xs != []
    ensures MeanItems(rules, ReadItems(Items(rules, parent, xs) + ("]" + rest)), xs, rest)
    decreases parent, |xs|
  {
    ItemsSplit(rules, parent, xs, rest);
    assert xs[0] in xs;
    var s, after := Items(rules, parent, xs) + ("]" + rest), AfterItem(rules, parent, xs, rest);
    ReadsBack(rules, xs[0], after);
    var first := ReadValue(s).value.value;
    if |xs| == 1 {
      LastItem(s, first, rest);
    } else {
      assert forall x :: x in xs[1..] ==> x in xs;
      ItemsBack(rules, parent, xs[1..], rest);
      var tail := Items(rules, parent, xs[1..]) + ("]" + rest);
      ItemGoesOn(s, first, tail, ReadItems(tail).value.value, rest);
    }
  }

  lemma LastItem(s: string, v: Json, rest: string)
    requires ReadValue(s) == Some(Found(v, "]" + rest))
    ensures ReadItems(s) == Some(Found([v], rest))
  {
    assert ("]" + rest)[1..] == rest;
  }

  lemma ItemGoesOn(s: string, v: Json, tail: string, more: seq<Json>, rest: string)
    requires ReadValue(s) == Some(Found(v, "," + tail)) && ReadItems(tail) == Some(Found(more, rest))
    ensures ReadItems(s) == Some(Found([v] + more, rest))
  {
    assert ("," + tail)[1..] == tail;
  }

  lemma {:induction false} ObjectBack(rules: Rules, v: Json, rest: string)
    requires Idempotent(rules.nfc) && Accepted(rules, v) && v.Obj?
    ensures Means(rules, ReadValue(Text(rules, v) + rest), v, rest)
    decreases v, |Ordered(rules, v.members)| + 1
  {
    var s, ms := Text(rules, v) + rest, Ordered(rules, v.members);
    ObjectAccepted(rules, v);
    Bracketed(rules, v, rest);
    assert s[0] == '{' && s[1..] == Entries(rules, v, ms) + ("}" + rest) && s[1] == s[1..][0];
    EntriesHead(rules, v, ms, rest);
    OrderedLength(rules, v.members);
    assert ReadValue(s) == ReadObject(s);
    if ms == [] {
      assert s[2..] == s[1..][1..] && ReadObject(s) == Some(Found(Obj([]), rest));
      assert v.members == [];
    } else {
      MembersBack(rules, v, ms, rest);
      var ns := ReadMembers(s[1..]).value.value;
      MembersSame(rules, v.members, ns);
      assert ReadObject(s) == Some(Found(Obj(ns), rest));
    }
  }

  lemma {:induction false} MembersBack(rules: Rules, parent: Json, ms: seq<Member>, rest: string)
    requires Idempotent(rules.nfc) && MembersAccepted(rules, parent, ms) && ms != []
    ensures MeanMembers(rules, ReadMembers(Entries(rules, parent, ms) + ("}" + rest)), ms, rest)
    decreases parent, |ms|
  {
    EntriesSplit(rules, parent, ms, rest);
    assert ms[0] in ms;
    var s, after := Entries(rules, parent, ms) + ("}" + rest), AfterEntry(rules, parent, ms, rest);
    var t := Text(rules, ms[0].value) + after;
    ReadsBack(rules, ms[0].value, after);
    var first := Member(ms[0].key, ReadValue(t).value.value);
    MemberBack(ms[0].key, t, first.value, after);
    if |ms| == 1 {
      LastMember(s, first, rest);
    } else {
      TailAccepted(rules, parent, ms);
      MembersBack(rules, parent, ms[1..], rest);
      var tail := Entries(rules, parent, ms[1..]) + ("}" + rest);
      MemberGoesOn(s, first, tail, ReadMembers(tail).value.value, rest);
    }
  }

  lemma MemberBack(key: string, text: string, v: Json, after: string)
    requires ReadValue(text) == Some(Found(v, after))
    ensures ReadMember(Quote(key) + (":" + text)) == Some(Found(Member(key, v), after))
  {
    var s := Quote(key) + (":" + text);
    assert s[0] == '\"' && s[1..] == Escape(key) + ("\"" + (":" + text));
    StringBack(key, ":" + text);
    assert (":" + text)[1..] == text;
  }

  lemma LastMember(s: string, m: Member, rest: string)
    requires ReadMember(s) == Some(Found(m, "}" + rest))
    ensures ReadMembers(s) == Some(Found([m], rest))
  {
    assert ("}" + rest)[1..] == rest;
  }

  lemma MemberGoesOn(s: string, m: Member, tail: string, more: seq<Member>, rest: string)
    requires ReadMember(s) == Some(Found(m, "," + tail)) && ReadMembers(tail) == Some(Found(more, rest))
    ensures ReadMembers(s) == Some(Found([m] + more, rest))
  {
    assert ("," + tail)[1..] == tail;
  }

  /** Members that agree with the sorted ones one by one agree with the given ones in some order. */
  lemma MembersSame(rules: Rules, ms: seq<Member>, ns: seq<Member>)
    requires Idempotent(rules.nfc) && |ns| == |ms| == |Ordered(rules, ms)|
    requires forall i :: 0 <= i < |ns| ==>
               ns[i].key == Ordered(rules, ms)[i].key && Same(rules.nfc, Ordered(rules, ms)[i].value, ns[i].value)
    ensures Same(rules.nfc, Obj(ms), Obj(ns))
  {
    forall i | 0 <= i < |ms|
      ensures exists j :: 0 <= j < |ns| && rules.nfc(ms[i].key) == rules.nfc(ns[j].key) && Same(rules.nfc, ms[i].value, ns[j].value)
    {
      OrderedKeeps(rules, ms, i);
      var j :| 0 <= j < |ms| && Ordered(rules, ms)[j] == Member(rules.nfc(ms[i].key), ms[i].value);
      assert rules.nfc(ns[j].key) == rules.nfc(ms[i].key);
    }
  }
}
