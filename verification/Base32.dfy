/**
 * Crockford base32: the relay's decoder, server/src/base32.ts, against the client's encoder,
 * crates/asli-crypto/src/base32.rs.
 *
 * The decoder keeps its bits in a 32-bit integer that wraps and the encoder in a 16-bit one. Both
 * are proved against the whole number that the symbols or bytes write out.
 */
module Base32 {
  import opened Options

  type Byte = x: int | 0 <= x < 256
  type Symbol = x: int | 0 <= x < 32

  const ALPHABET: string := "0123456789ABCDEFGHJKMNPQRSTVWXYZ"

  /** Where `c` first stands in `symbols` from index `from` on. */
  function IndexIn(symbols: string, c: char, from: nat): (r: Option<nat>)
    requires from <= |symbols|
    ensures r.Some? ==> from <= r.value < |symbols| && symbols[r.value] == c
    decreases |symbols| - from
  {
    if from == |symbols| then None
    else if symbols[from] == c then Some(from)
    else IndexIn(symbols, c, from + 1)
  }

  function Upper(c: char): char {
    if 'a' <= c <= 'z' then c - 'a' + 'A' else c
  }

  /** The decoder's table: the alphabet in both cases, and the confusions I, L and O. U has no value. */
  function ValueOf(c: char): (r: Option<nat>)
    ensures r.Some? ==> r.value < 32
  {
    var upper := Upper(c);
    if upper == 'I' || upper == 'L' then Some(1)
    else if upper == 'O' then Some(0)
    else IndexIn(ALPHABET, upper, 0)
  }

  /** The canonical spelling of a symbol. */
  function FoldChar(c: char): char {
    match ValueOf(c)
    case None => c
    case Some(v) => ALPHABET[v]
  }

  function Fold(s: string): string {
    seq(|s|, i requires 0 <= i < |s| => FoldChar(s[i]))
  }

  predicate AllSymbols(s: string) {
    forall i | 0 <= i < |s| :: ValueOf(s[i]).Some?
  }

  function Values(s: string): seq<Symbol>
    requires AllSymbols(s)
  {
    seq(|s|, i requires 0 <= i < |s| => ValueOf(s[i]).value)
  }

  // ------------------------------------------------------------------ whole numbers

  function Pow2(n: nat): (p: nat)
    ensures p > 0
  {
    if n == 0 then 1 else 2 * Pow2(n - 1)
  }

  /** The number that five-bit symbols write out, the first the most significant. */
  function Word(symbols: seq<Symbol>): nat {
    if symbols == [] then 0 else Word(symbols[..|symbols| - 1]) * 32 + symbols[|symbols| - 1]
  }

  /** The number that bytes write out. */
  function Number(bytes: seq<Byte>): nat {
    if bytes == [] then 0 else Number(bytes[..|bytes| - 1]) * 256 + bytes[|bytes| - 1]
  }

  lemma WordExtended(symbols: seq<Symbol>, v: Symbol)
    ensures Word(symbols + [v]) == Word(symbols) * 32 + v
  {
    assert (symbols + [v])[..|symbols|] == symbols;
  }

  lemma NumberExtended(bytes: seq<Byte>, b: Byte)
    ensures Number(bytes + [b]) == Number(bytes) * 256 + b
  {
    assert (bytes + [b])[..|bytes|] == bytes;
  }

  lemma {:induction false} WordTellsApart(a: seq<Symbol>, b: seq<Symbol>)
    requires |a| == |b| && Word(a) == Word(b)
    ensures a == b
  {
    if a != [] {
      WordTellsApart(a[..|a| - 1], b[..|b| - 1]);
      assert a == a[..|a| - 1] + [a[|a| - 1]] && b == b[..|b| - 1] + [b[|b| - 1]];
    }
  }

  lemma {:induction false} NumberTellsApart(a: seq<Byte>, b: seq<Byte>)
    requires |a| == |b| && Number(a) == Number(b)
    ensures a == b
  {
    if a != [] {
      NumberTellsApart(a[..|a| - 1], b[..|b| - 1]);
      assert a == a[..|a| - 1] + [a[|a| - 1]] && b == b[..|b| - 1] + [b[|b| - 1]];
    }
  }

  // ------------------------------------------------------------------ what the text means

  /** The bits that `symbols` five-bit symbols hold beyond `bytes` bytes. */
  function Spare(symbols: nat, bytes: nat): int {
    5 * symbols - 8 * bytes
  }

  /** The text writes out exactly these bytes, and then fewer than eight bits, all of them zero. */
  ghost predicate Spells(s: string, bytes: seq<Byte>) {
    && s != "" && AllSymbols(s)
    && 0 <= Spare(|s|, |bytes|) < 8
    && Word(Values(s)) == Number(bytes) * Pow2(Spare(|s|, |bytes|))
  }

  /** The text is the shortest that writes out these bytes, in the alphabet's own letters. */
  ghost predicate Encodes(s: string, bytes: seq<Byte>) {
    && AllSymbols(s) && Fold(s) == s
    && 0 <= Spare(|s|, |bytes|) < 5
    && Word(Values(s)) == Number(bytes) * Pow2(Spare(|s|, |bytes|))
  }

  // ------------------------------------------------------------------ the decoder

  const TWO_TO_32: nat := 0x1_0000_0000

  /** What a JavaScript bitwise operator makes of a number: a signed 32-bit integer. */
  function ToInt32(x: int): int {
    var low := x % TWO_TO_32;
    if low >= 0x8000_0000 then low - TWO_TO_32 else low
  }

  /** The accumulator agrees with the ideal number as far as it goes. */
  ghost predicate Agrees(buffer: int, word: nat) {
    buffer % TWO_TO_32 == word % TWO_TO_32
  }

  lemma Difference(buffer: int, word: nat) returns (t: int)
    requires Agrees(buffer, word)
    ensures buffer == word + TWO_TO_32 * t
  {
    t := buffer / TWO_TO_32 - word / TWO_TO_32;
  }

  lemma WrapDifference(x: int) returns (t: int)
    ensures ToInt32(x) == x + TWO_TO_32 * t
  {
    t := (ToInt32(x) - x) / TWO_TO_32;
  }

  lemma Cong(word: nat, buffer: int, t: int)
    requires buffer == word + TWO_TO_32 * t
    ensures Agrees(buffer, word)
  {
  }

  lemma AgreesShifted(buffer: int, word: nat, v: Symbol)
    requires Agrees(buffer, word)
    ensures Agrees(ToInt32(buffer * 32) + v, word * 32 + v)
  {
    var t := Difference(buffer, word);
    var u := WrapDifference(buffer * 32);
    Cong(word * 32 + v, ToInt32(buffer * 32) + v, 32 * t + u);
  }

  lemma PowersOfTwo()
    ensures Pow2(0) == 1 && Pow2(1) == 2 && Pow2(2) == 4 && Pow2(3) == 8 && Pow2(4) == 16
    ensures Pow2(5) == 32 && Pow2(6) == 64 && Pow2(7) == 128 && Pow2(8) == 256
  {
  }

  lemma {:induction false} AtLeastOnce(d: int, p: int)
    requires d > 0 && p > 0
    ensures d * p >= d
  {
  }

  lemma SmallMultiple(d: int, p: int)
    requires d > 0 && -d < d * p < d
    ensures p == 0
  {
    if p > 0 {
      AtLeastOnce(d, p);
    } else if p < 0 {
      AtLeastOnce(d, -p);
    }
  }

  lemma OneQuotient(d: nat, q: int, r: int, q': int, r': int)
    requires d * q + r == d * q' + r' && 0 <= r < d && 0 <= r' < d
    ensures q == q' && r == r'
  {
    assert d * (q - q') == d * q - d * q';
    SmallMultiple(d, q - q');
  }

  lemma DivMod(x: int, d: nat)
    requires d > 0
    ensures x == d * (x / d) + x % d && x == (x / d) * d + x % d
  {
  }

  /** Adding a multiple of the divisor moves the quotient and keeps the remainder. */
  lemma DivAdds(x: int, m: int, d: nat)
    requires d > 0
    ensures (x + d * m) / d == x / d + m && (x + d * m) % d == x % d
  {
    var y := x + d * m;
    DivMod(x, d);
    DivMod(y, d);
    assert d * (x / d + m) == d * (x / d) + d * m;
    OneQuotient(d, x / d + m, x % d, y / d, y % d);
  }

  lemma Factored(d: nat, above: nat, t: int)
    requires d * above == TWO_TO_32
    ensures TWO_TO_32 * t == d * (above * t)
  {
  }

  lemma ModAdds(x: int, m: int)
    ensures (x + 256 * m) % 256 == x % 256
  {
  }

  /** How often a small power of two goes into 2^32. */
  lemma GoesInto(k: nat) returns (above: nat)
    requires k < 8
    ensures Pow2(k) * (256 * above) == TWO_TO_32
  {
    PowersOfTwo();
    above := match k
      case 0 => 0x100_0000
      case 1 => 0x80_0000
      case 2 => 0x40_0000
      case 3 => 0x20_0000
      case 4 => 0x10_0000
      case 5 => 0x8_0000
      case 6 => 0x4_0000
      case _ => 0x2_0000;
  }

  lemma WindowWith(buffer: int, word: nat, t: int, d: nat, above: nat)
    requires d > 0 && d * (256 * above) == TWO_TO_32 && buffer == word + TWO_TO_32 * t
    ensures (buffer / d) % 256 == (word / d) % 256 && buffer % d == word % d
  {
    var m := above * t;
    Factored(d, 256 * above, t);
    assert 256 * above * t == 256 * m;
    DivAdds(word, 256 * m, d);
    ModAdds(word / d, m);
  }

  /** The eight bits above the lowest `k`, and the lowest `k`, are the ideal ones, whatever the sign. */
  lemma AgreesInWindow(buffer: int, word: nat, k: nat)
    requires Agrees(buffer, word) && k < 8
    ensures (buffer / Pow2(k)) % 256 == (word / Pow2(k)) % 256
    ensures buffer % Pow2(k) == word % Pow2(k)
  {
    var t := Difference(buffer, word);
    var above := GoesInto(k);
    WindowWith(buffer, word, t, Pow2(k), above);
  }

  /** Five more bits leave the bits above them as they were. */
  lemma ShiftedBack(word: nat, v: Symbol, bits: nat)
    requires bits < 8
    ensures bits < 3 ==> (word * 32 + v) / Pow2(bits + 5) == word / Pow2(bits)
    ensures bits >= 3 ==> (word * 32 + v) / Pow2(bits - 3) / 256 == word / Pow2(bits)
  {
    PowersOfTwo();
  }

  /** Where the decoder stands: `bytes` are the whole bytes of the symbols so far. */
  ghost predicate Decoding(values: seq<Symbol>, bytes: seq<Byte>, buffer: int, bits: nat) {
    && 5 * |values| == 8 * |bytes| + bits && bits < 8
    && Agrees(buffer, Word(values))
    && Number(bytes) == Word(values) / Pow2(bits)
  }

  lemma DecodesOneMore(values: seq<Symbol>, bytes: seq<Byte>, buffer: int, bits: nat, v: Symbol, next: int)
    requires Decoding(values, bytes, buffer, bits) && next == ToInt32(buffer * 32) + v
    ensures bits < 3 ==> Decoding(values + [v], bytes, next, bits + 5)
    ensures bits >= 3 ==> Decoding(values + [v], bytes + [(next / Pow2(bits - 3)) % 256], next, bits - 3)
  {
    var word := Word(values);
    WordExtended(values, v);
    AgreesShifted(buffer, word, v);
    ShiftedBack(word, v, bits);
    if bits >= 3 {
      AgreesInWindow(next, word * 32 + v, bits - 3);
      var top := (word * 32 + v) / Pow2(bits - 3);
      NumberExtended(bytes, top % 256);
    }
  }

  lemma MultipleHasNoRemainder(word: nat, q: nat, k: nat)
    requires k < 8 && word == q * Pow2(k)
    ensures word % Pow2(k) == 0
  {
    PowersOfTwo();
    DivAdds(0, q, Pow2(k));
  }

  /** `values` are the values of the first symbols of `input`. */
  ghost predicate Reads(input: string, values: seq<Symbol>) {
    |values| <= |input| && forall i | 0 <= i < |values| :: ValueOf(input[i]) == Some(values[i])
  }

  lemma ReadsOneMore(input: string, values: seq<Symbol>, value: Option<nat>)
    requires Reads(input, values) && |values| < |input|
    requires ValueOf(input[|values|]) == value && value.Some?
    ensures Reads(input, values + [value.value])
  {
  }

  lemma ReadsAll(input: string, values: seq<Symbol>)
    requires Reads(input, values) && |values| == |input|
    ensures AllSymbols(input) && Values(input) == values
  {
  }

  ghost predicate SpellsNothing(input: string, n: nat) {
    forall bytes: seq<Byte> | |bytes| == n :: !Spells(input, bytes)
  }

  lemma UnknownSymbol(input: string, i: nat, n: nat)
    requires i < |input| && ValueOf(input[i]).None?
    ensures SpellsNothing(input, n)
  {
  }

  lemma WrongLength(input: string, n: nat)
    requires !(0 <= Spare(|input|, n) < 8)
    ensures SpellsNothing(input, n)
  {
  }

  lemma TailIsNotZero(input: string, n: nat, word: nat, bits: nat)
    requires AllSymbols(input) && bits < 8 && Spare(|input|, n) == bits
    requires Word(Values(input)) == word && word % Pow2(bits) != 0
    ensures SpellsNothing(input, n)
  {
    forall bytes: seq<Byte> | |bytes| == n
      ensures !Spells(input, bytes)
    {
      if word == Number(bytes) * Pow2(bits) {
        MultipleHasNoRemainder(word, Number(bytes), bits);
      }
    }
  }

  /** The right answer: the bytes of this length that the text spells, or none if it spells no such bytes. */
  ghost predicate IsDecoding(input: string, n: nat, r: Option<seq<Byte>>) {
    match r
    case Some(bytes) => |bytes| == n && Spells(input, bytes)
    case None => SpellsNothing(input, n)
  }

  lemma AtTheEnd(input: string, n: nat, values: seq<Symbol>, bytes: seq<Byte>, buffer: int, bits: nat)
    requires input != "" && Reads(input, values) && |values| == |input| && Decoding(values, bytes, buffer, bits)
    ensures (bits > 0 && buffer % Pow2(bits) != 0) || |bytes| != n ==> IsDecoding(input, n, None)
    ensures !(bits > 0 && buffer % Pow2(bits) != 0) && |bytes| == n ==> IsDecoding(input, n, Some(bytes))
  {
    ReadsAll(input, values);
    if |bytes| != n {
      WrongLength(input, n);
    } else {
      assert Spare(|input|, n) == bits;
      OnlyZerosAreLeft(values, bytes, buffer, bits);
      if buffer % Pow2(bits) != 0 {
        TailIsNotZero(input, n, Word(values), bits);
      }
    }
  }

  lemma OnlyZerosAreLeft(values: seq<Symbol>, bytes: seq<Byte>, buffer: int, bits: nat)
    requires Decoding(values, bytes, buffer, bits)
    ensures buffer % Pow2(bits) == 0 ==> Word(values) == Number(bytes) * Pow2(bits)
    ensures buffer % Pow2(bits) != 0 ==> Word(values) % Pow2(bits) != 0
    ensures bits == 0 ==> buffer % Pow2(bits) == 0
  {
    AgreesInWindow(buffer, Word(values), bits);
    DivMod(Word(values), Pow2(bits));
  }

  lemma TooMany(input: string, n: nat, values: seq<Symbol>, bytes: seq<Byte>, bits: nat)
    requires |values| <= |input| && 5 * |values| == 8 * |bytes| + bits && bits >= 8 && |bytes| >= n
    ensures IsDecoding(input, n, None)
  {
    WrongLength(input, n);
  }

  /**
   * Decodes `input` to exactly `expectedBytes` bytes: it succeeds exactly when the text spells some
   * bytes of that length, and then answers them. The accumulator wraps; the result does not.
   */
  method DecodeCrockford(input: string, expectedBytes: nat) returns (r: Option<seq<Byte>>)
    ensures IsDecoding(input, expectedBytes, r)
  {
    if |input| == 0 {
      return None;
    }
    var out := new Byte[expectedBytes];
    var written, buffer, bits := 0, 0, 0;
    var i := 0;
    ghost var values: seq<Symbol> := [];
    while i < |input|
      invariant i == |values| && Reads(input, values)
      invariant 0 <= written <= expectedBytes && bits >= 0
      invariant Decoding(values, out[..written], buffer, bits)
    {
      var value := ValueOf(input[i]);
      if value.None? {
        UnknownSymbol(input, i, expectedBytes);
        return None;
      }
      ReadsOneMore(input, values, value);
      ghost var bytes, before := out[..written], buffer;
      buffer := ToInt32(buffer * 32) + value.value;
      DecodesOneMore(values, bytes, before, bits, value.value, buffer);
      values := values + [value.value];
      bits := bits + 5;
      i := i + 1;
      if bits >= 8 {
        bits := bits - 8;
        if written >= expectedBytes {
          TooMany(input, expectedBytes, values, bytes, bits + 8);
          return None;
        }
        out[written] := (buffer / Pow2(bits)) % 256;
        written := written + 1;
        assert out[..written] == bytes + [out[written - 1]];
      }
    }
    AtTheEnd(input, expectedBytes, values, out[..written], buffer, bits);
    if bits > 0 && buffer % Pow2(bits) != 0 {
      return None;
    }
    if written != expectedBytes {
      return None;
    }
    assert out[..written] == out[..];
    return Some(out[..]);
  }

  // ------------------------------------------------------------------ the encoder

  const TWO_TO_16: nat := 0x1_0000

  /** Where the encoder stands: `symbols` are the whole symbols of the bytes so far. */
  ghost predicate Encoding(bytes: seq<Byte>, symbols: seq<Symbol>, buffer: nat, bits: nat) {
    && 8 * |bytes| == 5 * |symbols| + bits && bits < 13
    && buffer == Number(bytes) % TWO_TO_16
    && Word(symbols) == Number(bytes) / Pow2(bits)
  }

  lemma ByteTaken(bytes: seq<Byte>, symbols: seq<Symbol>, buffer: nat, bits: nat, b: Byte)
    requires Encoding(bytes, symbols, buffer, bits) && bits < 5
    ensures Encoding(bytes + [b], symbols, (buffer * 256 + b) % TWO_TO_16, bits + 8)
  {
    NumberExtended(bytes, b);
    BytesMoveUp(Number(bytes), b, bits);
    U16MovesUp(Number(bytes), b);
  }

  lemma BytesMoveUp(number: nat, b: Byte, bits: nat)
    requires bits < 5
    ensures (number * 256 + b) / Pow2(bits + 8) == number / Pow2(bits)
  {
    PowersOfTwo();
    assert Pow2(9) == 512 && Pow2(10) == 1024 && Pow2(11) == 2048 && Pow2(12) == 4096;
  }

  lemma U16MovesUp(number: nat, b: Byte)
    ensures (number % TWO_TO_16 * 256 + b) % TWO_TO_16 == (number * 256 + b) % TWO_TO_16
  {
    assert number * 256 + b == number % TWO_TO_16 * 256 + b + TWO_TO_16 * (number / TWO_TO_16 * 256);
  }

  lemma SymbolTaken(bytes: seq<Byte>, symbols: seq<Symbol>, buffer: nat, bits: nat)
    requires Encoding(bytes, symbols, buffer, bits) && bits >= 5
    ensures Encoding(bytes, symbols + [(buffer / Pow2(bits - 5)) % 32], buffer, bits - 5)
  {
    WindowOf16(Number(bytes), bits - 5);
    WordExtended(symbols, (buffer / Pow2(bits - 5)) % 32);
    FiveBitsDown(Number(bytes), bits - 5);
  }

  lemma Regrouped(d: nat, above: nat, t: nat)
    requires d * (32 * above) == TWO_TO_16
    ensures TWO_TO_16 * t == d * (32 * (above * t))
  {
    assert d * (32 * (above * t)) == (d * (32 * above)) * t;
  }

  lemma ModAdds32(x: int, m: int)
    ensures (x + 32 * m) % 32 == x % 32
  {
  }

  lemma WindowAdds(low: nat, m: nat, d: nat)
    requires d > 0
    ensures ((low + d * (32 * m)) / d) % 32 == (low / d) % 32
  {
    DivAdds(low, 32 * m, d);
    ModAdds32(low / d, m);
  }

  lemma Split16(number: nat)
    ensures number == number % TWO_TO_16 + TWO_TO_16 * (number / TWO_TO_16)
  {
  }

  lemma WindowOf16With(number: nat, d: nat, above: nat)
    requires d > 0 && d * (32 * above) == TWO_TO_16
    ensures (number % TWO_TO_16 / d) % 32 == (number / d) % 32
  {
    Split16(number);
    Regrouped(d, above, number / TWO_TO_16);
    WindowAdds(number % TWO_TO_16, above * (number / TWO_TO_16), d);
  }

  lemma WindowOf16(number: nat, bits: nat)
    requires bits < 8
    ensures (number % TWO_TO_16 / Pow2(bits)) % 32 == (number / Pow2(bits)) % 32
  {
    PowersOfTwo();
    var above := match bits
      case 0 => 2048
      case 1 => 1024
      case 2 => 512
      case 3 => 256
      case 4 => 128
      case 5 => 64
      case 6 => 32
      case _ => 16;
    WindowOf16With(number, Pow2(bits), above);
  }

  lemma FiveBitsDown(number: nat, bits: nat)
    requires bits < 8
    ensures number / Pow2(bits) == number / Pow2(bits + 5) * 32 + number / Pow2(bits) % 32
  {
    PowersOfTwo();
    assert Pow2(9) == 512 && Pow2(10) == 1024 && Pow2(11) == 2048 && Pow2(12) == 4096;
  }

  lemma PaddingTaken(bytes: seq<Byte>, symbols: seq<Symbol>, buffer: nat, bits: nat)
    requires Encoding(bytes, symbols, buffer, bits) && 0 < bits < 5
    ensures Word(symbols + [(buffer * Pow2(5 - bits)) % 32]) == Number(bytes) * Pow2(5 - bits)
  {
    WordExtended(symbols, (buffer * Pow2(5 - bits)) % 32);
    ZerosBelow(Number(bytes), bits);
  }

  lemma LowFive(number: nat, p: nat)
    ensures (number % TWO_TO_16 * p) % 32 == (number * p) % 32
  {
    var low, t := number % TWO_TO_16, number / TWO_TO_16;
    var m := 2048 * (t * p);
    assert number * p == low * p + 32 * m by {
      assert number == low + TWO_TO_16 * t;
    }
    assert (low * p + 32 * m) % 32 == (low * p) % 32;
  }

  lemma HighRest(number: nat, bits: nat)
    requires 0 < bits < 5
    ensures number / Pow2(bits) == number * Pow2(5 - bits) / 32
  {
    PowersOfTwo();
    if bits == 1 {
      assert number / 2 == number * 16 / 32;
    } else if bits == 2 {
      assert number / 4 == number * 8 / 32;
    } else if bits == 3 {
      assert number / 8 == number * 4 / 32;
    } else {
      assert number / 16 == number * 2 / 32;
    }
  }

  lemma ZerosBelow(number: nat, bits: nat)
    requires 0 < bits < 5
    ensures number / Pow2(bits) * 32 + (number % TWO_TO_16 * Pow2(5 - bits)) % 32 == number * Pow2(5 - bits)
  {
    LowFive(number, Pow2(5 - bits));
    HighRest(number, bits);
  }

  // ------------------------------------------------------------------ the letters

  lemma InOrderUpTo(v: nat, w: nat)
    requires v < w < 32
    ensures ALPHABET[v] < ALPHABET[w]
  {
    assert forall i | 0 <= i < 31 :: ALPHABET[i] < ALPHABET[i + 1];
    if v + 1 < w {
      InOrderUpTo(v, w - 1);
    }
  }

  lemma FoundWhereItIs(v: nat, from: nat)
    requires from <= v < 32
    ensures IndexIn(ALPHABET, ALPHABET[v], from) == Some(v)
    decreases v - from
  {
    if from < v {
      InOrderUpTo(from, v);
      FoundWhereItIs(v, from + 1);
    }
  }

  lemma LetterValue(v: Symbol)
    ensures ValueOf(ALPHABET[v]) == Some(v) && FoldChar(ALPHABET[v]) == ALPHABET[v]
  {
    FoundWhereItIs(v, 0);
    assert forall i | 0 <= i < 32 :: !('a' <= ALPHABET[i] <= 'z') && ALPHABET[i] !in "ILO";
  }

  function Letters(symbols: seq<Symbol>): string {
    seq(|symbols|, i requires 0 <= i < |symbols| => ALPHABET[symbols[i]])
  }

  lemma LettersRead(symbols: seq<Symbol>)
    ensures AllSymbols(Letters(symbols)) && Values(Letters(symbols)) == symbols
    ensures Fold(Letters(symbols)) == Letters(symbols)
  {
    forall i | 0 <= i < |symbols|
      ensures ValueOf(Letters(symbols)[i]) == Some(symbols[i]) && FoldChar(Letters(symbols)[i]) == Letters(symbols)[i]
    {
      LetterValue(symbols[i]);
    }
  }

  lemma LettersExtended(symbols: seq<Symbol>, v: Symbol)
    ensures Letters(symbols + [v]) == Letters(symbols) + [ALPHABET[v]]
  {
  }

  lemma LettersEncode(bytes: seq<Byte>, symbols: seq<Symbol>)
    requires 0 <= Spare(|symbols|, |bytes|) < 5
    requires Word(symbols) == Number(bytes) * Pow2(Spare(|symbols|, |bytes|))
    ensures Encodes(Letters(symbols), bytes)
  {
    LettersRead(symbols);
  }

  lemma AllTaken(bytes: seq<Byte>, symbols: seq<Symbol>, buffer: nat, bits: nat)
    requires Encoding(bytes, symbols, buffer, bits) && bits < 5
    ensures bits == 0 ==> Encodes(Letters(symbols), bytes)
    ensures bits > 0 ==> Encodes(Letters(symbols + [(buffer * Pow2(5 - bits)) % 32]), bytes)
  {
    if bits == 0 {
      assert Pow2(0) == 1 && Spare(|symbols|, |bytes|) == 0;
      LettersEncode(bytes, symbols);
    } else {
      PaddingTaken(bytes, symbols, buffer, bits);
      var padded := symbols + [(buffer * Pow2(5 - bits)) % 32];
      assert Spare(|padded|, |bytes|) == 5 - bits;
      LettersEncode(bytes, padded);
    }
  }

  /** The encoder writes the shortest text of the bytes, whatever its 16-bit buffer dropped. */
  method Encode(input: seq<Byte>) returns (out: string)
    ensures Encodes(out, input)
  {
    out := "";
    var buffer, bits := 0, 0;
    ghost var symbols: seq<Symbol> := [];
    for i := 0 to |input|
      invariant 0 <= bits < 5 && buffer >= 0
      invariant Encoding(input[..i], symbols, buffer, bits) && out == Letters(symbols)
    {
      ghost var bytes := input[..i + 1];
      assert bytes == input[..i] + [input[i]];
      ByteTaken(input[..i], symbols, buffer, bits, input[i]);
      buffer := (buffer * 256 + input[i]) % TWO_TO_16;
      bits := bits + 8;
      while bits >= 5
        invariant bits >= 0
        invariant Encoding(bytes, symbols, buffer, bits) && out == Letters(symbols)
      {
        SymbolTaken(bytes, symbols, buffer, bits);
        bits := bits - 5;
        var index := (buffer / Pow2(bits)) % 32;
        LettersExtended(symbols, index);
        out := out + [ALPHABET[index]];
        symbols := symbols + [index];
      }
    }
    assert input[..|input|] == input;
    AllTaken(input, symbols, buffer, bits);
    if bits > 0 {
      var index := (buffer * Pow2(5 - bits)) % 32;
      LettersExtended(symbols, index);
      out := out + [ALPHABET[index]];
    }
  }

  // ------------------------------------------------------------------ both together

  lemma FoldedLetters(s: string)
    requires AllSymbols(s)
    ensures Fold(s) == Letters(Values(s))
  {
  }

  lemma FoldedSymbols(s: string)
    requires AllSymbols(Fold(s))
    ensures AllSymbols(s) && Values(Fold(s)) == Values(s)
  {
    forall i | 0 <= i < |s|
      ensures ValueOf(s[i]).Some? && ValueOf(Fold(s)[i]) == ValueOf(s[i])
    {
      assert ValueOf(Fold(s)[i]).Some?;
      if ValueOf(s[i]).Some? {
        LetterValue(ValueOf(s[i]).value);
      }
    }
  }

  lemma ZeroLetter(e: string)
    requires AllSymbols(e)
    ensures AllSymbols(e + "0") && Values(e + "0") == Values(e) + [0]
    ensures Letters(Values(e) + [0]) == Letters(Values(e)) + "0"
  {
    LetterValue(0);
    assert ALPHABET[0] == '0';
    assert forall i | 0 <= i < |e| :: (e + "0")[i] == e[i];
  }

  lemma Pow2Five(n: nat)
    ensures Pow2(n + 5) == Pow2(n) * 32
  {
    assert Pow2(n + 5) == 2 * Pow2(n + 4) == 4 * Pow2(n + 3) == 8 * Pow2(n + 2) == 16 * Pow2(n + 1);
  }

  /** The shortest text, and the shortest with a zero behind it where that still leaves under eight bits. */
  ghost predicate FoldsTo(s: string, e: string, n: nat) {
    s != "" && (Fold(s) == e || (Spare(|e|, n) < 3 && Fold(s) == e + "0"))
  }

  lemma TimesMore(word: nat, number: nat, p: nat)
    requires word == number * p
    ensures word * 32 == number * (p * 32)
  {
  }

  /** A zero behind the encoding writes out the same bytes and five more zero bits. */
  lemma ZeroBehind(e: string, bytes: seq<Byte>)
    requires Encodes(e, bytes)
    ensures AllSymbols(e + "0")
    ensures Word(Values(e + "0")) == Number(bytes) * Pow2(Spare(|e| + 1, |bytes|))
  {
    var spare := Spare(|e|, |bytes|);
    ZeroLetter(e);
    WordExtended(Values(e), 0);
    Pow2Five(spare);
    TimesMore(Word(Values(e)), Number(bytes), Pow2(spare));
    assert Spare(|e| + 1, |bytes|) == spare + 5;
  }

  lemma SameWordSameFold(s: string, t: string)
    requires AllSymbols(s) && AllSymbols(t) && |s| == |t| && Word(Values(s)) == Word(Values(t))
    ensures Fold(s) == Fold(t)
  {
    WordTellsApart(Values(s), Values(t));
    FoldedLetters(s);
    FoldedLetters(t);
  }

  lemma FoldWithZero(e: string)
    requires Fold(e) == e
    ensures Fold(e + "0") == e + "0"
  {
    LetterValue(0);
    forall i | 0 <= i < |e| + 1
      ensures Fold(e + "0")[i] == (e + "0")[i]
    {
      assert i < |e| ==> (e + "0")[i] == e[i] == Fold(e)[i];
    }
  }

  lemma SpellingsFold(s: string, e: string, bytes: seq<Byte>)
    requires Encodes(e, bytes) && Spells(s, bytes)
    ensures FoldsTo(s, e, |bytes|)
  {
    if |s| == |e| {
      SameWordSameFold(s, e);
    } else {
      assert |s| == |e| + 1;
      ZeroBehind(e, bytes);
      SameWordSameFold(s, e + "0");
      FoldWithZero(e);
    }
  }

  lemma FoldsSpell(s: string, e: string, bytes: seq<Byte>)
    requires Encodes(e, bytes) && FoldsTo(s, e, |bytes|)
    ensures Spells(s, bytes)
  {
    if Fold(s) == e {
      FoldedSymbols(s);
    } else {
      ZeroBehind(e, bytes);
      FoldedSymbols(s);
      assert |s| == |e| + 1;
    }
  }

  lemma TimesTellsApart(a: nat, b: nat, d: nat)
    requires d > 0 && a * d == b * d
    ensures a == b
  {
  }

  lemma OneMeaning(s: string, a: seq<Byte>, b: seq<Byte>)
    requires Spells(s, a) && Spells(s, b) && |a| == |b|
    ensures a == b
  {
    TimesTellsApart(Number(a), Number(b), Pow2(Spare(|s|, |a|)));
    NumberTellsApart(a, b);
  }

  /**
   * Which texts decode to these bytes: not the empty one, and otherwise exactly those that fold to
   * the encoding, or to the encoding and one more zero where fewer than three bits were spare.
   */
  lemma DecodesExactlyTheFolds(bytes: seq<Byte>, e: string, s: string, r: Option<seq<Byte>>)
    requires Encodes(e, bytes) && IsDecoding(s, |bytes|, r)
    ensures r == Some(bytes) <==> FoldsTo(s, e, |bytes|)
  {
    if FoldsTo(s, e, |bytes|) {
      FoldsSpell(s, e, bytes);
      if r.Some? {
        OneMeaning(s, r.value, bytes);
      }
    } else if r == Some(bytes) {
      SpellingsFold(s, e, bytes);
    }
  }

  /** At the encoder's own length the extra zero cannot occur. */
  lemma AtTheEncodersLength(bytes: seq<Byte>, e: string, s: string, r: Option<seq<Byte>>)
    requires Encodes(e, bytes) && IsDecoding(s, |bytes|, r) && |s| == |e|
    ensures r == Some(bytes) <==> s != "" && Fold(s) == e
  {
    DecodesExactlyTheFolds(bytes, e, s, r);
  }

  /** Decoding an encoding gives the bytes back, unless there are none: the decoder refuses the empty text. */
  lemma RoundTrip(bytes: seq<Byte>, e: string, r: Option<seq<Byte>>)
    requires Encodes(e, bytes) && IsDecoding(e, |bytes|, r)
    ensures r == Some(bytes) <==> bytes != []
  {
    DecodesExactlyTheFolds(bytes, e, e, r);
  }

  /** A room id of 16 bytes encodes to 26 characters, and those with a zero behind them decode as well. */
  lemma TwentySevenCharacters(id: seq<Byte>, e: string, r: Option<seq<Byte>>)
    requires |id| == 16 && Encodes(e, id) && IsDecoding(e + "0", 16, r)
    ensures |e| == 26 && r == Some(id)
  {
    FoldWithZero(e);
    DecodesExactlyTheFolds(id, e, e + "0", r);
  }
}
