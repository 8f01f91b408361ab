/**
 Canonical JSON, the text that fingerprints and drift checks are computed from. Unicode
 normalisation and the order of keys are parameters: the two editions sort keys differently, and
 nothing here depends on which total order is used.
 */
module CanonicalJson {
  import opened Options

  datatype Json =
    | Null
    | Bool(b: bool)
    | Num(n: real)
    | Str(s: string)
    | Arr(items: seq<Json>)
    | Obj(members: seq<Member>)

  datatype Member = Member(key: string, value: Json)

  /** Unicode normalisation form C and the order of object keys. */
  datatype Rules = Rules(nfc: string -> string, leq: (string, string) -> bool)

  ghost predicate TotalOrder(leq: (string, string) -> bool) {
    && (forall a, b :: leq(a, b) || leq(b, a))
    && (forall a, b :: leq(a, b) && leq(b, a) ==> a == b)
    && (forall a, b, c :: leq(a, b) && leq(b, c) ==> leq(a, c))
  }

  /* ----- numbers ----- */

  const MAX_SAFE_INTEGER: int := 9_007_199_254_740_991

  predicate SafeInteger(n: real) {
    n.Floor as real == n && -MAX_SAFE_INTEGER <= n.Floor <= MAX_SAFE_INTEGER
  }

  predicate IsThe(k: int, n: real) { k as real == n }

  /** The integers that a double holds apart from their neighbours: those below 2^53 in size. */
  lemma SafeExactly(n: real)
    ensures SafeInteger(n) <==> exists k :: IsThe(k, n) && -9_007_199_254_740_992 < k < 9_007_199_254_740_992
  {
    if SafeInteger(n) { assert IsThe(n.Floor, n); }
  }

  function Digit(d: nat): char
    requires d < 10
  {
    '0' + d as char
  }

  function Digits(n: nat): string {
    if n < 10 then [Digit(n)] else Digits(n / 10) + [Digit(n % 10)]
  }

  function Decimal(n: int): string { if n < 0 then "-" + Digits(-n) else Digits(n) }

  /* ----- strings ----- */

  function HexDigit(d: nat): char
    requires d < 16
  {
    if d < 10 then '0' + d as char else 'a' + (d - 10) as char
  }

  function EscapeChar(c: char): string {
    if c == 8 as char then "\\b"
    else if c == 9 as char then "\\t"
    else if c == 10 as char then "\\n"
    else if c == 12 as char then "\\f"
    else if c == 13 as char then "\\r"
    else if c == '\"' then "\\\""
    else if c == '\\' then "\\\\"
    else if c as int < 32 then "\\u00" + [HexDigit(c as int / 16), HexDigit(c as int % 16)]
    else [c]
  }

  /** The code words of the characters of a string, one after the other. */
  function Encode(code: char -> string, s: string): string {
    if s == "" then "" else Encode(code, s[..|s| - 1]) + code(s[|s| - 1])
  }

  function Escape(s: string): string { Encode(EscapeChar, s) }

  function Quote(s: string): string { "\"" + Escape(s) + "\"" }

  /** The native encoder's loop over the scalars of a string. */
  method EscapedString(value: string) returns (output: string)
    ensures output == Quote(value)
  {
    output := "\"";
    for i := 0 to |value|
      invariant output == "\"" + Escape(value[..i])
    {
      assert value[..i + 1][..i] == value[..i];
      output := output + EscapeChar(value[i]);
    }
    assert value[..|value|] == value;
    output := output + "\"";
  }

  /* ----- objects: normalised keys, sorted ----- */

  function Normalized(nfc: string -> string, members: seq<Member>): (r: seq<Member>)
    ensures |r| == |members|
    ensures forall i :: 0 <= i < |r| ==> r[i] == Member(nfc(members[i].key), members[i].value)
  {
    if members == [] then []
    else [Member(nfc(members[0].key), members[0].value)] + Normalized(nfc, members[1..])
  }

  predicate DistinctKeys(members: seq<Member>) {
    forall i, j :: 0 <= i < j < |members| ==> members[i].key != members[j].key
  }

  function Insert(leq: (string, string) -> bool, m: Member, sorted: seq<Member>): (r: seq<Member>)
    ensures multiset(r) == multiset([m]) + multiset(sorted)
  {
    if sorted == [] then [m]
    else if leq(m.key, sorted[0].key) then [m] + sorted
    else
      assert sorted == [sorted[0]] + sorted[1..];
      [sorted[0]] + Insert(leq, m, sorted[1..])
  }

  function Sort(leq: (string, string) -> bool, members: seq<Member>): (r: seq<Member>)
    ensures multiset(r) == multiset(members)
  {
    if members == [] then []
    else
      assert members == [members[0]] + members[1..];
      Insert(leq, members[0], Sort(leq, members[1..]))
  }

  function Ordered(rules: Rules, members: seq<Member>): (r: seq<Member>)
    ensures multiset(r) == multiset(Normalized(rules.nfc, members))
  {
    Sort(rules.leq, Normalized(rules.nfc, members))
  }

  lemma OrderedComesFrom(rules: Rules, members: seq<Member>, m: Member)
    requires m in Ordered(rules, members)
    ensures exists i :: 0 <= i < |members| && m == Member(rules.nfc(members[i].key), members[i].value)
  {
    var normal := Normalized(rules.nfc, members);
    assert m in multiset(Ordered(rules, members));
    assert m in normal;
    var i :| 0 <= i < |normal| && normal[i] == m;
  }

  lemma OrderedKeeps(rules: Rules, members: seq<Member>, i: nat)
    requires i < |members|
    ensures Member(rules.nfc(members[i].key), members[i].value) in Ordered(rules, members)
  {
    var normal := Normalized(rules.nfc, members);
    assert normal[i] in multiset(normal);
  }

  lemma OrderedIsSmaller(rules: Rules, v: Json)
    requires v.Obj?
    ensures forall m :: m in Ordered(rules, v.members) ==> m.value < v
  {
    forall m | m in Ordered(rules, v.members) ensures m.value < v {
      OrderedComesFrom(rules, v.members, m);
    }
  }

  /* ----- the encoder ----- */

  /** What the encoder accepts: safe integers, and no two keys of an object with the same normal form. */
  ghost predicate Accepted(rules: Rules, v: Json) {
    match v
    case Num(n) => SafeInteger(n)
    case Arr(items) => forall x :: x in items ==> Accepted(rules, x)
    case Obj(members) =>
      && DistinctKeys(Normalized(rules.nfc, members))
      && forall m :: m in members ==> Accepted(rules, m.value)
    case _ => true
  }

  function Text(rules: Rules, v: Json): string
    decreases v
  {
    match v
    case Null => "null"
    case Bool(b) => if b then "true" else "false"
    case Num(n) => Decimal(n.Floor)
    case Str(s) => Quote(rules.nfc(s))
    case Arr(items) => "[" + Items(rules, v, items) + "]"
    case Obj(members) =>
      OrderedIsSmaller(rules, v);
      "{" + Entries(rules, v, Ordered(rules, members)) + "}"
  }

  function Items(rules: Rules, parent: Json, items: seq<Json>): string
    requires forall x :: x in items ==> x < parent
    decreases parent, |items|
  {
    if items == [] then ""
    else
      assert items[0] in items && forall x :: x in items[1..] ==> x in items;
      if |items| == 1 then Text(rules, items[0]) else
      Text(rules, items[0]) + "," + Items(rules, parent, items[1..])
  }

  function Entry(rules: Rules, parent: Json, m: Member): string
    requires m.value < parent
    decreases parent, 0
  {
    Quote(m.key) + ":" + Text(rules, m.value)
  }

  function Entries(rules: Rules, parent: Json, members: seq<Member>): string
    requires forall m :: m in members ==> m.value < parent
    decreases parent, |members|
  {
    if members == [] then ""
    else
      assert members[0] in members && forall m :: m in members[1..] ==> m in members;
      if |members| == 1 then Entry(rules, parent, members[0]) else
      Entry(rules, parent, members[0]) + "," + Entries(rules, parent, members[1..])
  }

  /** `canonicalizeJson`: the text, or nothing when the value is rejected. */
  ghost function Canonicalize(rules: Rules, v: Json): Option<string> {
    if Accepted(rules, v) then Some(Text(rules, v)) else None
  }

  /* ----- what the text stands for ----- */

  /** Equal up to the order of members and the normal form of strings and keys. */
  ghost predicate Same(nfc: string -> string, a: Json, b: Json) {
    match (a, b)
    case (Null, Null) => true
    case (Bool(x), Bool(y)) => x == y
    case (Num(x), Num(y)) => x == y
    case (Str(x), Str(y)) => nfc(x) == nfc(y)
    case (Arr(xs), Arr(ys)) =>
      |xs| == |ys| && forall i :: 0 <= i < |xs| ==> Same(nfc, xs[i], ys[i])
    case (Obj(ms), Obj(ns)) =>
      |ms| == |ns| && forall i :: 0 <= i < |ms| ==>
        exists j :: 0 <= j < |ns| && nfc(ms[i].key) == nfc(ns[j].key) && Same(nfc, ms[i].value, ns[j].value)
    case _ => false
  }
}
