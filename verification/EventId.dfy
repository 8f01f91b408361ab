/**
 Deterministic destination event ids: base32hex (section 7 of RFC 4648, lower case, unpadded) of a
 digest of the copy's coordinates.
 */
module EventId {
  import opened Options

  type Byte = b: int | 0 <= b < 256
  type Symbol = d: int | 0 <= d < 32

  function Pow2(n: nat): (p: nat)
    ensures p >= 1
  {
    if n == 0 then 1 else 2 * Pow2(n - 1)
  }

  /** Big-endian value of a byte string. */
  function Value(data: seq<Byte>): nat {
    if data == [] then 0 else 256 * Value(data[..|data| - 1]) + data[|data| - 1]
  }

  /** Big-endian value of a string of five-bit symbols. */
  function SymbolValue(symbols: seq<Symbol>): nat {
    if symbols == [] then 0 else 32 * SymbolValue(symbols[..|symbols| - 1]) + symbols[|symbols| - 1]
  }

  /** `symbols` spells the bits of `data`, filled up with zero bits to a whole number of symbols. */
  ghost predicate Spells(symbols: seq<Symbol>, data: seq<Byte>) {
    && |symbols| == (8 * |data| + 4) / 5
    && SymbolValue(symbols) == Value(data) * Pow2(5 * |symbols| - 8 * |data|)
  }

  /** `low` written behind `spelled` in `bits` bits. */
  function Behind(spelled: nat, low: nat, bits: nat): nat
    decreases bits
  {
    if bits == 0 then spelled + low else Behind(2 * spelled, low, bits - 1)
  }

  /* ----- the three shifts of the encoder ----- */

  function ShiftRight(a: nat, k: nat): nat { if k == 0 then a else ShiftRight(a, k - 1) / 2 }

  function ShiftLeft(a: nat, k: nat): nat { if k == 0 then a else 2 * ShiftLeft(a, k - 1) }

  /** The mask with `k` ones. */
  function LowBits(a: nat, k: nat): nat {
    if k == 0 then 0
    else LowBits(a, k - 1) + if ShiftRight(a, k - 1) % 2 == 1 then Pow2(k - 1) else 0
  }

  lemma {:induction false} LowBitsAreFew(a: nat, k: nat)
    ensures LowBits(a, k) < Pow2(k)
  {
    if k > 0 { LowBitsAreFew(a, k - 1); }
  }

  lemma {:induction false} ShiftBound(a: nat, k: nat, j: nat)
    requires a < Pow2(k + j)
    ensures ShiftRight(a, k) < Pow2(j)
    decreases k
  {
    if k > 0 { ShiftBound(a, k - 1, j + 1); }
  }

  /** One unit of the front is `2^bits` behind it. */
  lemma {:induction false} Borrow(front: nat, low: nat, bits: nat)
    requires front > 0
    ensures Behind(front - 1, low + Pow2(bits), bits) == Behind(front, low, bits)
    decreases bits
  {
    if bits > 0 {
      Borrow(2 * front - 1, low + Pow2(bits - 1), bits - 1);
      Borrow(2 * front, low, bits - 1);
    }
  }

  /** Shifting and masking split a number without changing what is written. */
  lemma {:induction false} SplitBehind(front: nat, a: nat, k: nat)
    ensures Behind(front + ShiftRight(a, k), LowBits(a, k), k) == Behind(front, a, k)
    decreases k
  {
    if k > 0 {
      SplitBehind(2 * front, a, k - 1);
      if ShiftRight(a, k - 1) % 2 == 1 { Borrow(2 * front + ShiftRight(a, k - 1), LowBits(a, k - 1), k - 1); }
    }
  }

  lemma FiveMore(spelled: nat, low: nat, bits: nat)
    ensures Behind(spelled, low, bits + 5) == Behind(32 * spelled, low, bits)
    ensures Pow2(bits + 5) == 32 * Pow2(bits)
  {
    assert Behind(spelled, low, bits + 5) == Behind(2 * spelled, low, bits + 4);
    assert Behind(2 * spelled, low, bits + 4) == Behind(4 * spelled, low, bits + 3);
    assert Behind(4 * spelled, low, bits + 3) == Behind(8 * spelled, low, bits + 2);
    assert Behind(8 * spelled, low, bits + 2) == Behind(16 * spelled, low, bits + 1);
    assert Pow2(bits + 5) == 2 * Pow2(bits + 4) && Pow2(bits + 4) == 2 * Pow2(bits + 3);
    assert Pow2(bits + 3) == 2 * Pow2(bits + 2) && Pow2(bits + 2) == 2 * Pow2(bits + 1);
  }

  lemma ThreeMore(spelled: nat, low: nat, bits: nat)
    ensures Behind(spelled, low, bits + 3) == Behind(8 * spelled, low, bits)
    ensures Pow2(bits + 3) == 8 * Pow2(bits)
  {
    assert Behind(spelled, low, bits + 3) == Behind(2 * spelled, low, bits + 2);
    assert Behind(2 * spelled, low, bits + 2) == Behind(4 * spelled, low, bits + 1);
    assert Pow2(bits + 3) == 2 * Pow2(bits + 2) && Pow2(bits + 2) == 2 * Pow2(bits + 1);
  }

  /** A further byte makes the value 256 times as large. */
  lemma {:induction false} AppendByte(spelled: nat, accumulator: nat, bits: nat, byte: Byte)
    ensures 256 * Behind(spelled, accumulator, bits) + byte == Behind(spelled, accumulator * 256 + byte, bits + 8)
    decreases bits
  {
    if bits == 0 {
      FiveMore(spelled, accumulator * 256 + byte, 3);
      ThreeMore(32 * spelled, accumulator * 256 + byte, 0);
    } else {
      AppendByte(2 * spelled, accumulator, bits - 1, byte);
    }
  }

  lemma RoomForByte(accumulator: nat, bits: nat, byte: Byte)
    requires accumulator < Pow2(bits)
    ensures accumulator * 256 + byte < Pow2(bits + 8)
  {
    FiveMore(0, 0, bits + 3);
    ThreeMore(0, 0, bits);
  }

  lemma AppendedByte(data: seq<Byte>, i: nat)
    requires i < |data|
    ensures Value(data[..i + 1]) == 256 * Value(data[..i]) + data[i]
  {
    assert data[..i + 1][..i] == data[..i];
  }

  lemma AppendedSymbol(output: seq<Symbol>, symbol: Symbol)
    ensures SymbolValue(output + [symbol]) == 32 * SymbolValue(output) + symbol
  {
  }

  lemma {:induction false} PowAtMost(bits: nat, more: nat)
    ensures Pow2(bits) <= Pow2(bits + more)
  {
    if more > 0 { PowAtMost(bits, more - 1); }
  }

  /* ----- the loop ----- */

  /** The value the encoder has taken in so far: the symbols put out, and the bits waiting. */
  function TakenIn(output: seq<Symbol>, accumulator: nat, bits: nat): nat {
    Behind(SymbolValue(output), accumulator, bits)
  }

  lemma TakeInByte(data: seq<Byte>, i: nat, output: seq<Symbol>, accumulator: nat, bits: nat)
    requires i < |data| && accumulator < Pow2(bits) && Value(data[..i]) == TakenIn(output, accumulator, bits)
    ensures accumulator * 256 + data[i] < Pow2(bits + 8)
    ensures Value(data[..i + 1]) == TakenIn(output, accumulator * 256 + data[i], bits + 8)
  {
    AppendedByte(data, i);
    RoomForByte(accumulator, bits, data[i]);
    AppendByte(SymbolValue(output), accumulator, bits, data[i]);
  }

  /** Taking the top five bits off the accumulator moves them to the output. */
  lemma TakeSymbol(output: seq<Symbol>, accumulator: nat, bits: nat)
    requires accumulator < Pow2(bits + 5)
    ensures ShiftRight(accumulator, bits) < 32 && LowBits(accumulator, bits) < Pow2(bits)
    ensures TakenIn(output + [ShiftRight(accumulator, bits) % 32], LowBits(accumulator, bits), bits)
         == TakenIn(output, accumulator, bits + 5)
  {
    assert Pow2(5) == 32 by { FiveMore(0, 0, 0); }
    ShiftBound(accumulator, bits, 5);
    LowBitsAreFew(accumulator, bits);
    FiveMore(SymbolValue(output), accumulator, bits);
    SplitBehind(32 * SymbolValue(output), accumulator, bits);
    AppendedSymbol(output, ShiftRight(accumulator, bits));
  }

  lemma PutOutRest(data: seq<Byte>, output: seq<Symbol>, accumulator: nat, bits: nat)
    requires 0 < bits < 5 && accumulator < Pow2(bits) && 5 * |output| + bits == 8 * |data|
    requires Value(data) == TakenIn(output, accumulator, bits)
    ensures ShiftLeft(accumulator, 5 - bits) < 32
    ensures Spells(output + [ShiftLeft(accumulator, 5 - bits) % 32], data)
  {
    LastBits(SymbolValue(output), accumulator, bits);
    AppendedSymbol(output, ShiftLeft(accumulator, 5 - bits));
    ShiftSpells(output + [ShiftLeft(accumulator, 5 - bits) % 32], data, 5 - bits);
  }

  lemma ShiftSpells(symbols: seq<Symbol>, data: seq<Byte>, k: nat)
    requires k < 5 && 5 * |symbols| == 8 * |data| + k && SymbolValue(symbols) == ShiftLeft(Value(data), k)
    ensures Spells(symbols, data)
  {
    ShiftLeftIs(Value(data), k);
    assert 5 * |symbols| - 8 * |data| == k;
  }

  lemma {:induction false} ShiftLeftIs(a: nat, k: nat)
    ensures ShiftLeft(a, k) == a * Pow2(k)
  {
    if k > 0 {
      ShiftLeftIs(a, k - 1);
      assert a * (2 * Pow2(k - 1)) == 2 * (a * Pow2(k - 1));
    }
  }

  lemma NothingWaits(data: seq<Byte>, output: seq<Symbol>, accumulator: nat)
    requires accumulator < Pow2(0) && 5 * |output| == 8 * |data| && Value(data) == TakenIn(output, accumulator, 0)
    ensures Spells(output, data)
  {
  }

  lemma SmallShifts(a: nat)
    ensures ShiftLeft(a, 1) == 2 * a && ShiftLeft(a, 2) == 4 * a && ShiftLeft(a, 3) == 8 * a && ShiftLeft(a, 4) == 16 * a
  {
  }

  lemma LastBits(spelled: nat, accumulator: nat, bits: nat)
    requires 0 < bits < 5 && accumulator < Pow2(bits)
    ensures ShiftLeft(accumulator, 5 - bits) < 32
    ensures 32 * spelled + ShiftLeft(accumulator, 5 - bits) == ShiftLeft(Behind(spelled, accumulator, bits), 5 - bits)
  {
    assert Pow2(1) == 2 && Pow2(2) == 4 && Pow2(3) == 8 && Pow2(4) == 16;
    SmallShifts(accumulator);
    SmallShifts(Behind(spelled, accumulator, bits));
    assert Behind(spelled, accumulator, 1) == 2 * spelled + accumulator;
    assert Behind(spelled, accumulator, 2) == 4 * spelled + accumulator;
    assert Behind(spelled, accumulator, 3) == Behind(2 * spelled, accumulator, 2) == 8 * spelled + accumulator;
    assert Behind(spelled, accumulator, 4) == Behind(2 * spelled, accumulator, 3)
        == Behind(4 * spelled, accumulator, 2) == 16 * spelled + accumulator;
  }

  /** The inner loop, once a byte is in: symbols go out while five bits are waiting. */
  method PutOutSymbols(ghost taken: nat, before: seq<Symbol>, waiting: nat, bits: nat)
    returns (output: seq<Symbol>, accumulator: nat, bitCount: nat)
    requires waiting < Pow2(bits) && taken == TakenIn(before, waiting, bits) && bits <= 12
    ensures bitCount < 5 && accumulator < Pow2(bitCount) && taken == TakenIn(output, accumulator, bitCount)
    ensures 5 * |output| + bitCount == 5 * |before| + bits
  {
    output, accumulator, bitCount := before, waiting, bits;
    while bitCount >= 5
      invariant bitCount <= 12 && accumulator < Pow2(bitCount)
      invariant 5 * |output| + bitCount == 5 * |before| + bits
      invariant taken == TakenIn(output, accumulator, bitCount)
    {
      bitCount := bitCount - 5;
      TakeSymbol(output, accumulator, bitCount);
      output := output + [ShiftRight(accumulator, bitCount) % 32];
      accumulator := LowBits(accumulator, bitCount);
    }
  }

  /** The encoder's loop. The accumulator never needs more than twelve bits. */
  method Base32Hex(data: seq<Byte>) returns (output: seq<Symbol>)
    ensures Spells(output, data)
  {
    var accumulator: nat, bitCount: nat := 0, 0;
    output := [];
    for i := 0 to |data|
      invariant bitCount < 5 && accumulator < Pow2(bitCount)
      invariant 5 * |output| + bitCount == 8 * i
      invariant Value(data[..i]) == TakenIn(output, accumulator, bitCount)
    {
      TakeInByte(data, i, output, accumulator, bitCount);
      PowAtMost(bitCount + 8, 4 - bitCount);
      assert accumulator * 256 + data[i] < Pow2(12);
      output, accumulator, bitCount := PutOutSymbols(Value(data[..i + 1]), output, accumulator * 256 + data[i], bitCount + 8);
    }
    assert data[..|data|] == data;
    if bitCount > 0 {
      PutOutRest(data, output, accumulator, bitCount);
      output := output + [ShiftLeft(accumulator, 5 - bitCount) % 32];
    } else {
      NothingWaits(data, output, accumulator);
    }
  }

  /* ----- decoding ----- */

  lemma MulMono(a: nat, b: nat, p: nat)
    requires a <= b
    ensures a * p <= b * p
  {
  }

  function Bytes(value: nat, count: nat): seq<Byte> {
    if count == 0 then [] else Bytes(value / 256, count - 1) + [value % 256]
  }

  lemma {:induction false} BytesOfValue(data: seq<Byte>)
    ensures Bytes(Value(data), |data|) == data
  {
    if data != [] {
      var n := |data| - 1;
      BytesOfValue(data[..n]);
      assert Value(data) / 256 == Value(data[..n]) && Value(data) % 256 == data[n];
      assert data[..n] + [data[n]] == data;
    }
  }

  /** Drop the filling bits and cut the rest into bytes. */
  function Decode(symbols: seq<Symbol>): seq<Byte> {
    var count := 5 * |symbols| / 8;
    Bytes(Quotient(SymbolValue(symbols), Pow2(5 * |symbols| - 8 * count)), count)
  }

  function Quotient(a: nat, b: nat): nat
    requires b >= 1
  {
    a / b
  }

  /** Decoding recovers the bytes, whatever their number. */
  lemma DecodeSpelling(symbols: seq<Symbol>, data: seq<Byte>)
    requires Spells(symbols, data)
    ensures Decode(symbols) == data
  {
    assert 5 * |symbols| / 8 == |data|;
    var fill := Pow2(5 * |symbols| - 8 * |data|);
    DivBack(Value(data), fill);
    BytesOfValue(data);
  }

  lemma DivBack(v: nat, p: nat)
    requires p >= 1
    ensures v * p / p == v
  {
    var q, r := v * p / p, v * p % p;
    assert q * p + r == v * p;
    assert (v - q) * p == r;
    if v > q { MulMono(1, v - q, p); }
  }

  /** A spelling determines the bytes, and the bytes determine the spelling. */
  lemma SpellingIsUnique(a: seq<Symbol>, b: seq<Symbol>, x: seq<Byte>, y: seq<Byte>)
    requires Spells(a, x) && Spells(b, y)
    ensures a == b <==> x == y
  {
    DecodeSpelling(a, x);
    DecodeSpelling(b, y);
    if x == y { SymbolsUnique(a, b); }
  }

  lemma {:induction false} SymbolsUnique(a: seq<Symbol>, b: seq<Symbol>)
    requires |a| == |b| && SymbolValue(a) == SymbolValue(b)
    ensures a == b
    decreases |a|
  {
    if a != [] {
      var n := |a| - 1;
      SymbolsUnique(a[..n], b[..n]);
      assert a == a[..n] + [a[n]] && b == b[..n] + [b[n]];
    }
  }

  /* ----- the alphabet and the whole id ----- */

  const ALPHABET := "0123456789abcdefghijklmnopqrstuv"

  function Letters(symbols: seq<Symbol>): string {
    if symbols == [] then "" else Letters(symbols[..|symbols| - 1]) + [ALPHABET[symbols[|symbols| - 1]]]
  }

  lemma AlphabetCodes(a: Symbol)
    ensures ALPHABET[a] as int == if a < 10 then '0' as int + a else 'a' as int + (a - 10)
  {
  }

  lemma AlphabetInjective(a: Symbol, b: Symbol)
    requires ALPHABET[a] == ALPHABET[b]
    ensures a == b
  {
    AlphabetCodes(a);
    AlphabetCodes(b);
  }

  lemma {:induction false} LettersInjective(a: seq<Symbol>, b: seq<Symbol>)
    requires Letters(a) == Letters(b)
    ensures a == b
    decreases |a|
  {
    LettersLength(a);
    LettersLength(b);
    if a != [] {
      var n := |a| - 1;
      LastLetter(a);
      LastLetter(b);
      LettersInjective(a[..n], b[..n]);
      AlphabetInjective(a[n], b[n]);
      assert a == a[..n] + [a[n]] && b == b[..n] + [b[n]];
    }
  }

  lemma LastLetter(a: seq<Symbol>)
    requires a != []
    ensures var n := |a| - 1;
            |Letters(a)| == |a| && Letters(a)[..n] == Letters(a[..n]) && Letters(a)[n] == ALPHABET[a[n]]
  {
  }

  lemma {:induction false} LettersLength(a: seq<Symbol>)
    ensures |Letters(a)| == |a|
  {
    if a != [] { LettersLength(a[..|a| - 1]); }
  }

  const SEPARATOR := 0x1f as char

  function Join(parts: seq<string>): string {
    if parts == [] then ""
    else if |parts| == 1 then parts[0]
    else parts[0] + [SEPARATOR] + Join(parts[1..])
  }

  datatype Coordinates = Coordinates(
    installation: string, policy: string, calendar: string, event: string, occurrence: Option<string>)

  function OccurrenceText(occurrence: Option<string>): string {
    if occurrence.Some? then occurrence.value else "master"
  }

  function Parts(c: Coordinates): seq<string> {
    ["planipus-google-event-v1", c.installation, c.policy, c.calendar, c.event, OccurrenceText(c.occurrence)]
  }

  predicate Clean(parts: seq<string>) { forall i :: 0 <= i < |parts| ==> SEPARATOR !in parts[i] }

  lemma FirstPart(a: string, b: string, s: string, t: string)
    requires a + [SEPARATOR] + s == b + [SEPARATOR] + t && SEPARATOR !in a && SEPARATOR !in b
    ensures a == b && s == t
  {
    var l, r := a + [SEPARATOR] + s, b + [SEPARATOR] + t;
    assert l[|a|] == SEPARATOR && forall i :: 0 <= i < |a| ==> l[i] == a[i];
    assert r[|b|] == SEPARATOR && forall i :: 0 <= i < |b| ==> r[i] == b[i];
    assert a == l[..|a|] && b == r[..|b|] && s == l[|a| + 1..] && t == r[|b| + 1..];
  }

  lemma {:induction false} JoinInjective(a: seq<string>, b: seq<string>)
    requires |a| == |b| && Clean(a) && Clean(b) && Join(a) == Join(b)
    ensures a == b
    decreases |a|
  {
    if |a| == 1 {
      assert a == [a[0]] && b == [b[0]];
    } else if |a| > 1 {
      FirstPart(a[0], b[0], Join(a[1..]), Join(b[1..]));
      assert forall i :: 0 <= i < |a[1..]| ==> a[1..][i] == a[i + 1];
      assert forall i :: 0 <= i < |b[1..]| ==> b[1..][i] == b[i + 1];
      JoinInjective(a[1..], b[1..]);
      assert a == [a[0]] + a[1..] && b == [b[0]] + b[1..];
    }
  }

  /** `id` is the deterministic id of the coordinates under the digest `sha`. */
  ghost predicate IsIdOf(sha: string -> seq<Byte>, c: Coordinates, id: string) {
    exists symbols :: Spells(symbols, sha(Join(Parts(c)))) && id == "p" + Letters(symbols)
  }

  method Deterministic(sha: string -> seq<Byte>, c: Coordinates) returns (id: string)
    ensures IsIdOf(sha, c, id)
  {
    var symbols := Base32Hex(sha(Join(Parts(c))));
    id := "p" + Letters(symbols);
  }

  predicate Permitted(c: char) { '0' <= c <= '9' || 'a' <= c <= 'v' }

  /** An id is made of the characters that the calendar permits; with a digest of 32 bytes it has 53 of them. */
  lemma IdIsPermitted(sha: string -> seq<Byte>, c: Coordinates, id: string)
    requires IsIdOf(sha, c, id)
    ensures forall i :: 0 <= i < |id| ==> Permitted(id[i])
    ensures |sha(Join(Parts(c)))| == 32 ==> |id| == 53
  {
    var symbols :| Spells(symbols, sha(Join(Parts(c)))) && id == "p" + Letters(symbols);
    LettersLength(symbols);
    LettersPermitted(symbols);
    forall i | 0 <= i < |id| ensures Permitted(id[i]) {
      if i > 0 { assert id[i] == Letters(symbols)[i - 1]; }
    }
  }

  lemma {:induction false} LettersPermitted(symbols: seq<Symbol>)
    ensures forall i :: 0 <= i < |Letters(symbols)| ==> Permitted(Letters(symbols)[i])
    decreases |symbols|
  {
    if symbols != [] {
      LettersPermitted(symbols[..|symbols| - 1]);
      AlphabetCodes(symbols[|symbols| - 1]);
    }
  }

  /** With an injective digest two ids are equal exactly when the joined coordinates are, separators or not. */
  lemma IdsAreJoins(sha: string -> seq<Byte>, c: Coordinates, d: Coordinates, x: string, y: string)
    requires forall s, t :: sha(s) == sha(t) ==> s == t
    requires IsIdOf(sha, c, x) && IsIdOf(sha, d, y)
    ensures x == y <==> Join(Parts(c)) == Join(Parts(d))
  {
    var a :| Spells(a, sha(Join(Parts(c)))) && x == "p" + Letters(a);
    var b :| Spells(b, sha(Join(Parts(d)))) && y == "p" + Letters(b);
    SpellingIsUnique(a, b, sha(Join(Parts(c))), sha(Join(Parts(d))));
    if x == y {
      assert x[1..] == Letters(a) && y[1..] == Letters(b);
      LettersInjective(a, b);
    }
  }

  /** With an injective digest and no separator inside a coordinate, two ids are equal exactly when the
      coordinates are, an absent occurrence counting as the word "master". */
  lemma IdsIdentify(sha: string -> seq<Byte>, c: Coordinates, d: Coordinates, x: string, y: string)
    requires forall s, t :: sha(s) == sha(t) ==> s == t
    requires Clean(Parts(c)) && Clean(Parts(d)) && IsIdOf(sha, c, x) && IsIdOf(sha, d, y)
    ensures x == y <==>
            && c.installation == d.installation && c.policy == d.policy && c.calendar == d.calendar
            && c.event == d.event
            && (c.occurrence == d.occurrence || {c.occurrence, d.occurrence} == {None, Some("master")})
  {
    IdsAreJoins(sha, c, d, x, y);
    if x == y {
      JoinInjective(Parts(c), Parts(d));
      assert Parts(c)[1] == Parts(d)[1] && Parts(c)[2] == Parts(d)[2] && Parts(c)[3] == Parts(d)[3]
          && Parts(c)[4] == Parts(d)[4] && Parts(c)[5] == Parts(d)[5];
    }
  }
}
