/**
 * Reading a Windows shortcut, crates/asli-app/src/shortcut.rs (module lnk), against the layout of
 * sections 2.1 to 2.5 of [MS-SHLLINK]. Strings stay sequences of code units.
 */
module ShellLink {
  import opened Options

  type Byte = x: int | 0 <= x < 256

  datatype Error = NoHeader | EndsEarly(at: nat)

  datatype Result<+T> = Ok(value: T) | Err(error: Error) {
    predicate IsFailure() {
      Err?
    }

    function PropagateFailure<U>(): Result<U>
      requires IsFailure()
    {
      Err(error)
    }

    function Extract(): T
      requires !IsFailure()
    {
      value
    }
  }

  const HEADER_SIZE: nat := 0x4C
  const LINK_CLSID: seq<Byte> := [
    0x01, 0x14, 0x02, 0x00, 0x00, 0x00, 0x00, 0x00, 0xC0, 0x00, 0x00, 0x00, 0x00, 0x00, 0x00, 0x46]

  const ENVIRONMENT_BLOCK: nat := 0xA000_0001
  const ICON_ENVIRONMENT_BLOCK: nat := 0xA000_0007

  /**
   * The flags that decide what a link holds. `strings` are those of the name, the relative path, the
   * working directory, the arguments and the icon location, in the file's order.
   */
  datatype Flags = Flags(
    idList: bool,
    linkInfo: bool,
    strings: seq<bool>,
    unicode: bool,
    expString: bool,
    expIcon: bool)

  const FIELDS: nat := 5
  const ICON_FIELD: nat := 4

  type AllFlags = f: Flags | |f.strings| == 5 witness Flags(false, false, [false, false, false, false, false], false, false, false)

  /** The lowest `n` bits of a word, the lowest first. */
  function Bits(word: nat, n: nat): (bits: seq<bool>)
    ensures |bits| == n
  {
    if n == 0 then [] else [word % 2 == 1] + Bits(word / 2, n - 1)
  }

  /** The masks 0x1, 0x2, 0x4 to 0x40, 0x80, 0x200 and 0x4000 of LinkFlags. */
  function FlagsIn(bits: seq<bool>): AllFlags
    requires |bits| == 15
  {
    Flags(bits[0], bits[1], bits[2..7], bits[7], bits[9], bits[14])
  }

  function FlagsOf(word: nat): AllFlags {
    FlagsIn(Bits(word, 15))
  }

  /** The number whose lowest bits are these, with `high` above them. */
  function WordOf(bits: seq<bool>, high: nat): nat {
    if bits == [] then high else (if bits[0] then 1 else 0) + 2 * WordOf(bits[1..], high)
  }

  lemma {:induction false} BitsReadBack(bits: seq<bool>, high: nat)
    ensures Bits(WordOf(bits, high), |bits|) == bits
  {
    if bits != [] {
      BitsReadBack(bits[1..], high);
      assert WordOf(bits, high) / 2 == WordOf(bits[1..], high);
    }
  }

  function PowerOfTwo(k: nat): nat {
    if k == 0 then 1 else 2 * PowerOfTwo(k - 1)
  }

  /** The bit at `k` is the one its mask asks for. */
  lemma {:induction false} BitIsMasked(word: nat, n: nat, k: nat)
    requires k < n
    ensures PowerOfTwo(k) > 0 && Bits(word, n)[k] == ((word / PowerOfTwo(k)) % 2 == 1)
  {
    if k > 0 {
      BitIsMasked(word / 2, n - 1, k - 1);
      HalfThenDivide(word, PowerOfTwo(k - 1));
    }
  }

  lemma HalfThenDivide(word: nat, d: nat)
    requires d > 0
    ensures word / 2 / d == word / (2 * d)
  {
    var q, r := word / 2 / d, word / 2 % d;
    assert word == 2 * d * q + (2 * r + word % 2) by {
      assert word / 2 == d * q + r;
    }
    QuotientIs(word, 2 * d, q, 2 * r + word % 2);
  }

  lemma QuotientIs(x: nat, d: nat, q: nat, r: nat)
    requires d > 0 && x == d * q + r && r < d
    ensures x / d == q
  {
    assert x == d * (x / d) + x % d;
    Apart(d, q, x / d);
    Apart(d, x / d, q);
  }

  lemma Apart(d: nat, a: nat, b: nat)
    ensures a < b ==> d * a + d <= d * b
  {
    if a < b {
      var k := b - a - 1;
      assert d * b == d * (a + 1 + k) == d * a + d + d * k;
    }
  }

  /** Each flag is read from its own bit, whatever the other bits are. */
  lemma FlagsReadBack(bits: seq<bool>, high: nat)
    requires |bits| == 15
    ensures FlagsOf(WordOf(bits, high)) == FlagsIn(bits)
  {
    BitsReadBack(bits, high);
  }

  /** The three things a reader wants to know of a link. */
  datatype Facts = Facts(targetEnvironment: bool, iconEnvironment: bool, icon: Option<seq<nat>>)

  // ------------------------------------------------------------------ reading

  function Take(bytes: seq<Byte>, at: nat, len: nat): Result<seq<Byte>> {
    if at + len <= |bytes| then Ok(bytes[at..at + len]) else Err(EndsEarly(at))
  }

  function U16(low: nat, high: nat): nat {
    low + 256 * high
  }

  function U32(low: nat, high: nat): nat {
    low + 0x1_0000 * high
  }

  function U16At(bytes: seq<Byte>, at: nat): Result<nat> {
    var b :- Take(bytes, at, 2);
    Ok(U16(b[0], b[1]))
  }

  function U32At(bytes: seq<Byte>, at: nat): Result<nat> {
    var b :- Take(bytes, at, 4);
    Ok(U32(U16(b[0], b[1]), U16(b[2], b[3])))
  }

  /** UTF-16 units in pairs, or one unit a byte. */
  function Units(raw: seq<Byte>, unicode: bool): seq<nat> {
    if unicode then
      if |raw| < 2 then [] else [U16(raw[0], raw[1])] + Units(raw[2..], unicode)
    else
      if raw == [] then [] else [raw[0] as nat] + Units(raw[1..], unicode)
  }

  /** A string's units and where it ends. */
  datatype Text = Text(units: seq<nat>, end: nat)

  /** Where the strings end, and the icon location among them. */
  datatype Strings = Strings(end: nat, icon: Option<seq<nat>>)

  function TrimNuls(units: seq<nat>): seq<nat> {
    if units != [] && units[|units| - 1] == 0 then TrimNuls(units[..|units| - 1]) else units
  }

  /** Reads one counted string. Answers its units and where it ends. */
  function StringAt(bytes: seq<Byte>, unicode: bool, at: nat): Result<Text> {
    var count :- U16At(bytes, at);
    var len := if unicode then count * 2 else count;
    var raw :- Take(bytes, at + 2, len);
    Ok(Text(Units(raw, unicode), at + 2 + len))
  }

  /** The strings of the remaining fields: where they end, and the icon location, which is the last. */
  function StringsAt(bytes: seq<Byte>, present: seq<bool>, unicode: bool, at: nat, icon: Option<seq<nat>>)
    : Result<Strings>
  {
    if present == [] then Ok(Strings(at, icon))
    else if !present[0] then StringsAt(bytes, present[1..], unicode, at, icon)
    else
      var text :- StringAt(bytes, unicode, at);
      StringsAt(bytes, present[1..], unicode, text.end, if |present| == 1 then Some(TrimNuls(text.units)) else icon)
  }

  function WithBlock(facts: Facts, signature: nat): Facts {
    if signature == ENVIRONMENT_BLOCK then facts.(targetEnvironment := true)
    else if signature == ICON_ENVIRONMENT_BLOCK then facts.(iconEnvironment := true)
    else facts
  }

  function BlocksAt(bytes: seq<Byte>, at: nat, facts: Facts): Result<Facts>
    decreases |bytes| - at
  {
    if at + 4 > |bytes| then Ok(facts)
    else
      var size :- U32At(bytes, at);
      if size < 8 then Ok(facts)
      else
        var signature :- U32At(bytes, at + 4);
        BlocksAt(bytes, at + size, WithBlock(facts, signature))
  }

  /** Skips what stands before the strings. */
  function StringsStart(bytes: seq<Byte>, flags: AllFlags): Result<nat> {
    var afterList :-
      if flags.idList
      then match U16At(bytes, HEADER_SIZE) case Ok(size) => Ok(HEADER_SIZE + 2 + size) case Err(e) => Err(e)
      else Ok(HEADER_SIZE);
    if flags.linkInfo
    then match U32At(bytes, afterList) case Ok(size) => Ok(afterList + size) case Err(e) => Err(e)
    else Ok(afterList)
  }

  function HeaderFlags(bytes: seq<Byte>): Result<AllFlags> {
    var size :- U32At(bytes, 0);
    if size != HEADER_SIZE then Err(NoHeader)
    else
      var clsid :- Take(bytes, 4, 16);
      if clsid != LINK_CLSID then Err(NoHeader)
      else
        var word :- U32At(bytes, 0x14);
        Ok(FlagsOf(word))
  }

  function Read(bytes: seq<Byte>): Result<Facts> {
    var flags :- HeaderFlags(bytes);
    var start :- StringsStart(bytes, flags);
    var strings :- StringsAt(bytes, flags.strings, flags.unicode, start, None);
    BlocksAt(bytes, strings.end, Facts(flags.expString, flags.expIcon, strings.icon))
  }

  method ReadStrings(bytes: seq<Byte>, flags: AllFlags, start: nat) returns (r: Result<Strings>)
    ensures r == StringsAt(bytes, flags.strings, flags.unicode, start, None)
  {
    var at := start;
    var icon: Option<seq<nat>> := None;
    for i := 0 to FIELDS
      invariant at >= 0
      invariant StringsAt(bytes, flags.strings, flags.unicode, start, None)
                == StringsAt(bytes, flags.strings[i..], flags.unicode, at, icon)
    {
      if flags.strings[i] {
        var text :- StringAt(bytes, flags.unicode, at);
        at := text.end;
        if i == ICON_FIELD {
          icon := Some(TrimNuls(text.units));
        }
      }
    }
    return Ok(Strings(at, icon));
  }

  method ReadBlocks(bytes: seq<Byte>, start: nat, before: Facts) returns (r: Result<Facts>)
    ensures r == BlocksAt(bytes, start, before)
  {
    var at, facts := start, before;
    while at + 4 <= |bytes|
      invariant at >= 0
      invariant BlocksAt(bytes, start, before) == BlocksAt(bytes, at, facts)
      decreases |bytes| - at
    {
      var size := U32At(bytes, at).Extract();
      if size < 8 {
        break;
      }
      var signature :- U32At(bytes, at + 4);
      if signature == ENVIRONMENT_BLOCK {
        facts := facts.(targetEnvironment := true);
      } else if signature == ICON_ENVIRONMENT_BLOCK {
        facts := facts.(iconEnvironment := true);
      }
      at := at + size;
    }
    return Ok(facts);
  }

  method SkipToStrings(bytes: seq<Byte>, flags: AllFlags) returns (r: Result<nat>)
    ensures r == StringsStart(bytes, flags)
  {
    var at := HEADER_SIZE;
    if flags.idList {
      var skip :- U16At(bytes, at);
      at := at + 2 + skip;
    }
    if flags.linkInfo {
      var skip :- U32At(bytes, at);
      at := at + skip;
    }
    return Ok(at);
  }

  method ReadHeader(bytes: seq<Byte>) returns (r: Result<AllFlags>)
    ensures r == HeaderFlags(bytes)
  {
    var size :- U32At(bytes, 0);
    if size != HEADER_SIZE {
      return Err(NoHeader);
    }
    var clsid :- Take(bytes, 4, 16);
    if clsid != LINK_CLSID {
      return Err(NoHeader);
    }
    var word :- U32At(bytes, 0x14);
    return Ok(FlagsOf(word));
  }

  /** Reads any bytes at all: every length is checked before it is used, and the loops always move on. */
  method Inspect(bytes: seq<Byte>) returns (r: Result<Facts>)
    ensures r == Read(bytes)
  {
    var flags :- ReadHeader(bytes);
    var start :- SkipToStrings(bytes, flags);
    var strings :- ReadStrings(bytes, flags, start);
    r := ReadBlocks(bytes, strings.end, Facts(flags.expString, flags.expIcon, strings.icon));
  }

  /** What trimming leaves ends in no NUL, and what it takes off is nothing else. */
  lemma {:induction false} TrimmedExactly(units: seq<nat>)
    ensures var kept := TrimNuls(units);
            && kept <= units && (kept != [] ==> kept[|kept| - 1] != 0)
            && forall i | |kept| <= i < |units| :: units[i] == 0
  {
    if units != [] && units[|units| - 1] == 0 {
      TrimmedExactly(units[..|units| - 1]);
    }
  }

  // ------------------------------------------------------------------ writing

  function Le16(v: nat): seq<Byte> {
    [v % 256, v / 256 % 256]
  }

  function Le32(v: nat): seq<Byte> {
    Le16(v % 0x1_0000) + Le16(v / 0x1_0000)
  }

  /** An extra data block. In the file its size, which includes the eight bytes before the body, comes first. */
  datatype Block = Block(signature: nat, body: seq<Byte>)

  /**
   * Any link that sections 2.1 to 2.5 allow: the flags and the rest of the header, the item ids, the
   * link info behind its size, the five strings, the blocks, and what ends them.
   */
  datatype Link = Link(
    word: nat,
    header: seq<Byte>,
    idList: seq<Byte>,
    linkInfo: seq<Byte>,
    strings: seq<seq<nat>>,
    blocks: seq<Block>,
    tail: seq<Byte>)

  function FlagsOfLink(link: Link): AllFlags {
    FlagsOf(link.word)
  }

  /** UTF-16 units, or one byte each. */
  predicate FitUnits(units: seq<nat>, unicode: bool) {
    units != [] ==> units[0] < (if unicode then 0x1_0000 else 256) && FitUnits(units[1..], unicode)
  }

  predicate FitsString(units: seq<nat>, unicode: bool) {
    |units| < 0x1_0000 && FitUnits(units, unicode)
  }

  predicate FitsBlock(block: Block) {
    block.signature < 0x1_0000_0000 && |block.body| < 0x1_0000_0000 - 8
  }

  /** Every part fits the field that counts it, and the blocks end at a short one or with the file. */
  predicate FitsFlags(link: Link, flags: AllFlags) {
    && |link.header| == 52
    && |link.idList| < 0x1_0000 && |link.linkInfo| < 0x1_0000_0000 - 4
    && |link.strings| == FIELDS && FitStrings(link.strings, flags.unicode)
    && (forall i | 0 <= i < |link.blocks| :: FitsBlock(link.blocks[i]))
    && (|link.tail| < 4 || U32At(link.tail, 0).value < 8)
  }

  predicate WellFormed(link: Link) {
    link.word < 0x1_0000_0000 && FitsFlags(link, FlagsOfLink(link))
  }

  function UnitBytes(units: seq<nat>, unicode: bool): (raw: seq<Byte>)
    requires FitUnits(units, unicode)
    ensures |raw| == if unicode then |units| * 2 else |units|
  {
    if units == [] then []
    else (if unicode then Le16(units[0]) else [units[0]]) + UnitBytes(units[1..], unicode)
  }

  function StringBytes(units: seq<nat>, unicode: bool): seq<Byte>
    requires FitsString(units, unicode)
  {
    Le16(|units|) + UnitBytes(units, unicode)
  }

  predicate FitStrings(strings: seq<seq<nat>>, unicode: bool) {
    strings != [] ==> FitsString(strings[0], unicode) && FitStrings(strings[1..], unicode)
  }

  /** The strings of the fields that are present. */
  function StringsBytes(strings: seq<seq<nat>>, present: seq<bool>, unicode: bool): seq<Byte>
    requires FitStrings(strings, unicode) && |strings| == |present|
  {
    if present == [] then []
    else
      (if present[0] then StringBytes(strings[0], unicode) else [])
      + StringsBytes(strings[1..], present[1..], unicode)
  }

  function BlockBytes(block: Block): seq<Byte> {
    Le32(|block.body| + 8) + Le32(block.signature) + block.body
  }

  function BlocksBytes(blocks: seq<Block>): seq<Byte> {
    if blocks == [] then [] else BlockBytes(blocks[0]) + BlocksBytes(blocks[1..])
  }

  function HeaderBytes(link: Link): seq<Byte> {
    Le32(HEADER_SIZE) + LINK_CLSID + Le32(link.word) + link.header
  }

  function IdListBytes(flags: AllFlags, idList: seq<Byte>): seq<Byte> {
    if flags.idList then Le16(|idList|) + idList else []
  }

  function LinkInfoBytes(flags: AllFlags, linkInfo: seq<Byte>): seq<Byte> {
    if flags.linkInfo then Le32(|linkInfo| + 4) + linkInfo else []
  }

  function Serialized(link: Link): seq<Byte>
    requires WellFormed(link)
  {
    var flags := FlagsOfLink(link);
    HeaderBytes(link) + (IdListBytes(flags, link.idList) + (LinkInfoBytes(flags, link.linkInfo)
      + (StringsBytes(link.strings, flags.strings, flags.unicode) + (BlocksBytes(link.blocks) + link.tail))))
  }

  predicate Signed(blocks: seq<Block>, signature: nat) {
    exists i | 0 <= i < |blocks| :: blocks[i].signature == signature
  }

  /** What a link says, without its bytes. */
  function FactsOf(link: Link): Facts
    requires WellFormed(link)
  {
    var flags := FlagsOfLink(link);
    Facts(
      flags.expString || Signed(link.blocks, ENVIRONMENT_BLOCK),
      flags.expIcon || Signed(link.blocks, ICON_ENVIRONMENT_BLOCK),
      if flags.strings[ICON_FIELD] then Some(TrimNuls(link.strings[ICON_FIELD])) else None)
  }

  // ------------------------------------------------------------------ reading what was written

  /** `chunk` stands in `bytes` at `at`. */
  ghost predicate Stands(bytes: seq<Byte>, at: nat, chunk: seq<Byte>) {
    at + |chunk| <= |bytes| && forall i | 0 <= i < |chunk| :: bytes[at + i] == chunk[i]
  }

  lemma StandsParts(bytes: seq<Byte>, at: nat, a: seq<Byte>, b: seq<Byte>)
    requires Stands(bytes, at, a + b)
    ensures Stands(bytes, at, a) && Stands(bytes, at + |a|, b)
  {
    assert forall i | 0 <= i < |a| :: (a + b)[i] == a[i];
    assert forall i | 0 <= i < |b| :: (a + b)[|a| + i] == b[i];
  }

  lemma ReadsLe16(bytes: seq<Byte>, at: nat, v: nat)
    requires Stands(bytes, at, Le16(v)) && v < 0x1_0000
    ensures U16At(bytes, at) == Ok(v)
  {
    TakesChunk(bytes, at, Le16(v));
  }

  lemma Le16Value(v: nat)
    requires v < 0x1_0000
    ensures U16(v % 256, v / 256 % 256) == v
  {
  }

  lemma Le32Value(v: nat)
    requires v < 0x1_0000_0000
    ensures var b := Le32(v); |b| == 4 && U32(U16(b[0], b[1]), U16(b[2], b[3])) == v
  {
    Le16Value(v % 0x1_0000);
    Le16Value(v / 0x1_0000);
  }

  lemma ReadsLe32(bytes: seq<Byte>, at: nat, v: nat)
    requires Stands(bytes, at, Le32(v)) && v < 0x1_0000_0000
    ensures U32At(bytes, at) == Ok(v)
  {
    TakesChunk(bytes, at, Le32(v));
    Le32Value(v);
  }

  lemma {:induction false} ReadsUnits(units: seq<nat>, unicode: bool)
    requires FitUnits(units, unicode)
    ensures Units(UnitBytes(units, unicode), unicode) == units
  {
    if units != [] {
      var rest := UnitBytes(units[1..], unicode);
      ReadsUnits(units[1..], unicode);
      assert UnitBytes(units, unicode)[if unicode then 2 else 1..] == rest;
    }
  }

  lemma TakesChunk(bytes: seq<Byte>, at: nat, chunk: seq<Byte>)
    requires Stands(bytes, at, chunk)
    ensures Take(bytes, at, |chunk|) == Ok(chunk)
  {
    assert bytes[at..at + |chunk|] == chunk;
  }

  lemma CountedUnits(bytes: seq<Byte>, unicode: bool, at: nat, count: nat, raw: seq<Byte>)
    requires U16At(bytes, at) == Ok(count) && |raw| == (if unicode then count * 2 else count)
    requires Take(bytes, at + 2, |raw|) == Ok(raw)
    ensures StringAt(bytes, unicode, at) == Ok(Text(Units(raw, unicode), at + 2 + |raw|))
  {
  }

  lemma ReadsString(bytes: seq<Byte>, unicode: bool, at: nat, units: seq<nat>)
    requires FitsString(units, unicode) && Stands(bytes, at, StringBytes(units, unicode))
    ensures StringAt(bytes, unicode, at) == Ok(Text(units, at + |StringBytes(units, unicode)|))
  {
    var raw := UnitBytes(units, unicode);
    StandsParts(bytes, at, Le16(|units|), raw);
    ReadsLe16(bytes, at, |units|);
    TakesChunk(bytes, at + 2, raw);
    CountedUnits(bytes, unicode, at, |units|, raw);
    ReadsUnits(units, unicode);
  }

  /** The icon location among the remaining fields. */
  function IconFrom(strings: seq<seq<nat>>, present: seq<bool>, icon: Option<seq<nat>>): Option<seq<nat>>
    requires |strings| == |present|
  {
    if present != [] && present[|present| - 1] then Some(TrimNuls(strings[|strings| - 1])) else icon
  }

  lemma IconStep(strings: seq<seq<nat>>, present: seq<bool>, icon: Option<seq<nat>>)
    requires |strings| == |present| && present != []
    ensures IconFrom(strings, present, icon)
            == IconFrom(strings[1..], present[1..],
                        if present[0] && |present| == 1 then Some(TrimNuls(strings[0])) else icon)
  {
  }

  lemma FieldRead(
    bytes: seq<Byte>, present: seq<bool>, unicode: bool, at: nat, text: seq<nat>, end: nat, icon: Option<seq<nat>>)
    requires present != [] && (if present[0] then StringAt(bytes, unicode, at) == Ok(Text(text, end)) else end == at)
    ensures StringsAt(bytes, present, unicode, at, icon)
            == StringsAt(bytes, present[1..], unicode, end,
                         if present[0] && |present| == 1 then Some(TrimNuls(text)) else icon)
  {
  }

  /** One field: `n` bytes of it, after which the rest stands. */
  lemma FieldStands(bytes: seq<Byte>, strings: seq<seq<nat>>, present: seq<bool>, unicode: bool, at: nat)
    returns (n: nat)
    requires FitStrings(strings, unicode) && |strings| == |present| && present != []
    requires Stands(bytes, at, StringsBytes(strings, present, unicode))
    ensures var rest := StringsBytes(strings[1..], present[1..], unicode);
            |StringsBytes(strings, present, unicode)| == n + |rest| && Stands(bytes, at + n, rest)
    ensures if present[0] then n == |StringBytes(strings[0], unicode)| && Stands(bytes, at, StringBytes(strings[0], unicode))
            else n == 0
  {
    var text := if present[0] then StringBytes(strings[0], unicode) else [];
    n := |text|;
    StandsParts(bytes, at, text, StringsBytes(strings[1..], present[1..], unicode));
  }

  lemma ReadsField(
    bytes: seq<Byte>, strings: seq<seq<nat>>, present: seq<bool>, unicode: bool, at: nat, n: nat, icon: Option<seq<nat>>)
    returns (next: Option<seq<nat>>)
    requires FitStrings(strings, unicode) && |strings| == |present| && present != []
    requires if present[0] then n == |StringBytes(strings[0], unicode)| && Stands(bytes, at, StringBytes(strings[0], unicode))
             else n == 0
    ensures StringsAt(bytes, present, unicode, at, icon) == StringsAt(bytes, present[1..], unicode, at + n, next)
    ensures IconFrom(strings, present, icon) == IconFrom(strings[1..], present[1..], next)
  {
    next := if present[0] && |present| == 1 then Some(TrimNuls(strings[0])) else icon;
    if present[0] {
      ReadsString(bytes, unicode, at, strings[0]);
    }
    FieldRead(bytes, present, unicode, at, strings[0], at + n, icon);
    IconStep(strings, present, icon);
  }

  lemma {:induction false} ReadsStrings(
    bytes: seq<Byte>, strings: seq<seq<nat>>, present: seq<bool>, unicode: bool, at: nat, icon: Option<seq<nat>>)
    requires FitStrings(strings, unicode) && |strings| == |present|
    requires Stands(bytes, at, StringsBytes(strings, present, unicode))
    ensures StringsAt(bytes, present, unicode, at, icon)
            == Ok(Strings(at + |StringsBytes(strings, present, unicode)|, IconFrom(strings, present, icon)))
    decreases |present|
  {
    if present != [] {
      var n := FieldStands(bytes, strings, present, unicode, at);
      var next := ReadsField(bytes, strings, present, unicode, at, n, icon);
      ReadsStrings(bytes, strings[1..], present[1..], unicode, at + n, next);
    }
  }

  function WithBlocks(facts: Facts, blocks: seq<Block>): Facts {
    facts.(targetEnvironment := facts.targetEnvironment || Signed(blocks, ENVIRONMENT_BLOCK),
           iconEnvironment := facts.iconEnvironment || Signed(blocks, ICON_ENVIRONMENT_BLOCK))
  }

  lemma SignedFirst(blocks: seq<Block>, signature: nat)
    requires blocks != []
    ensures Signed(blocks, signature) <==> blocks[0].signature == signature || Signed(blocks[1..], signature)
  {
    if Signed(blocks, signature) && blocks[0].signature != signature {
      var i :| 0 <= i < |blocks| && blocks[i].signature == signature;
      assert blocks[1..][i - 1] == blocks[i];
    }
    if Signed(blocks[1..], signature) {
      var i :| 0 <= i < |blocks| - 1 && blocks[1..][i].signature == signature;
      assert blocks[i + 1] == blocks[1..][i];
    }
  }

  lemma WithBlocksFirst(facts: Facts, blocks: seq<Block>)
    requires blocks != []
    ensures WithBlocks(facts, blocks) == WithBlocks(WithBlock(facts, blocks[0].signature), blocks[1..])
  {
    SignedFirst(blocks, ENVIRONMENT_BLOCK);
    SignedFirst(blocks, ICON_ENVIRONMENT_BLOCK);
  }

  lemma ReadsTail(bytes: seq<Byte>, at: nat, tail: seq<Byte>, facts: Facts)
    requires Stands(bytes, at, tail) && at + |tail| == |bytes|
    requires |tail| < 4 || U32At(tail, 0).value < 8
    ensures BlocksAt(bytes, at, facts) == Ok(facts)
  {
    if |tail| >= 4 {
      assert bytes[at..at + 4] == tail[0..4];
    }
  }

  lemma {:induction false} ReadsBlocks(bytes: seq<Byte>, at: nat, blocks: seq<Block>, tail: seq<Byte>, facts: Facts)
    requires Stands(bytes, at, BlocksBytes(blocks) + tail) && at + |BlocksBytes(blocks)| + |tail| == |bytes|
    requires forall i | 0 <= i < |blocks| :: FitsBlock(blocks[i])
    requires |tail| < 4 || U32At(tail, 0).value < 8
    ensures BlocksAt(bytes, at, facts) == Ok(WithBlocks(facts, blocks))
    decreases |blocks|
  {
    if blocks == [] {
      assert BlocksBytes(blocks) + tail == tail;
      ReadsTail(bytes, at, tail, facts);
    } else {
      var block, rest := blocks[0], BlocksBytes(blocks[1..]) + tail;
      assert BlocksBytes(blocks) + tail == BlockBytes(block) + rest;
      StandsParts(bytes, at, BlockBytes(block), rest);
      BlockHead(bytes, at, block);
      ReadsBlocks(bytes, at + |BlockBytes(block)|, blocks[1..], tail, WithBlock(facts, block.signature));
      WithBlocksFirst(facts, blocks);
    }
  }

  lemma BlockHead(bytes: seq<Byte>, at: nat, block: Block)
    requires Stands(bytes, at, BlockBytes(block)) && FitsBlock(block)
    ensures U32At(bytes, at) == Ok(|BlockBytes(block)|) && |BlockBytes(block)| >= 8
    ensures U32At(bytes, at + 4) == Ok(block.signature)
  {
    var size, signature := Le32(|block.body| + 8), Le32(block.signature);
    StandsParts(bytes, at, size + signature, block.body);
    StandsParts(bytes, at, size, signature);
    ReadsLe32(bytes, at, |block.body| + 8);
    ReadsLe32(bytes, at + 4, block.signature);
  }

  lemma ReadsHeader(bytes: seq<Byte>, link: Link)
    requires WellFormed(link) && Stands(bytes, 0, HeaderBytes(link))
    ensures |HeaderBytes(link)| == HEADER_SIZE
    ensures HeaderFlags(bytes) == Ok(FlagsOfLink(link))
  {
    var size, flags := Le32(HEADER_SIZE), Le32(link.word);
    StandsParts(bytes, 0, size + LINK_CLSID + flags, link.header);
    StandsParts(bytes, 0, size + LINK_CLSID, flags);
    StandsParts(bytes, 0, size, LINK_CLSID);
    ReadsLe32(bytes, 0, HEADER_SIZE);
    ReadsLe32(bytes, 0x14, link.word);
  }

  lemma ReadsStart(bytes: seq<Byte>, flags: AllFlags, idList: seq<Byte>, linkInfo: seq<Byte>)
    requires |idList| < 0x1_0000 && |linkInfo| < 0x1_0000_0000 - 4
    requires Stands(bytes, HEADER_SIZE, IdListBytes(flags, idList))
    requires Stands(bytes, HEADER_SIZE + |IdListBytes(flags, idList)|, LinkInfoBytes(flags, linkInfo))
    ensures StringsStart(bytes, flags)
            == Ok(HEADER_SIZE + |IdListBytes(flags, idList)| + |LinkInfoBytes(flags, linkInfo)|)
  {
    if flags.idList {
      StandsParts(bytes, HEADER_SIZE, Le16(|idList|), idList);
      ReadsLe16(bytes, HEADER_SIZE, |idList|);
    }
    if flags.linkInfo {
      var at := HEADER_SIZE + |IdListBytes(flags, idList)|;
      StandsParts(bytes, at, Le32(|linkInfo| + 4), linkInfo);
      ReadsLe32(bytes, at, |linkInfo| + 4);
    }
  }

  lemma Assembled(bytes: seq<Byte>, flags: AllFlags, start: nat, end: nat, icon: Option<seq<nat>>, facts: Facts)
    requires HeaderFlags(bytes) == Ok(flags) && StringsStart(bytes, flags) == Ok(start)
    requires StringsAt(bytes, flags.strings, flags.unicode, start, None) == Ok(Strings(end, icon))
    requires BlocksAt(bytes, end, Facts(flags.expString, flags.expIcon, icon)) == Ok(facts)
    ensures Read(bytes) == Ok(facts)
  {
  }

  /** The parts stand one behind another and make up the whole file. */
  ghost predicate InARow(bytes: seq<Byte>, a: seq<Byte>, b: seq<Byte>, c: seq<Byte>, d: seq<Byte>, e: seq<Byte>) {
    && Stands(bytes, 0, a) && Stands(bytes, |a|, b) && Stands(bytes, |a| + |b|, c)
    && Stands(bytes, |a| + |b| + |c|, d) && Stands(bytes, |a| + |b| + |c| + |d|, e)
    && |a| + |b| + |c| + |d| + |e| == |bytes|
  }

  lemma JoinedStand(bytes: seq<Byte>, a: seq<Byte>, b: seq<Byte>, c: seq<Byte>, d: seq<Byte>, e: seq<Byte>)
    requires bytes == a + (b + (c + (d + e)))
    ensures InARow(bytes, a, b, c, d, e)
  {
    var r3 := d + e;
    var r2 := c + r3;
    var r1 := b + r2;
    StandsParts(bytes, 0, a, r1);
    StandsParts(bytes, |a|, b, r2);
    StandsParts(bytes, |a| + |b|, c, r3);
    StandsParts(bytes, |a| + |b| + |c|, d, e);
  }

  ghost predicate PartsStand(bytes: seq<Byte>, link: Link, flags: AllFlags)
    requires FitStrings(link.strings, flags.unicode) && |link.strings| == FIELDS
  {
    InARow(bytes, HeaderBytes(link), IdListBytes(flags, link.idList), LinkInfoBytes(flags, link.linkInfo),
           StringsBytes(link.strings, flags.strings, flags.unicode), BlocksBytes(link.blocks) + link.tail)
  }

  lemma HeaderLength(link: Link)
    requires |link.header| == 52
    ensures |HeaderBytes(link)| == HEADER_SIZE
  {
  }

  lemma SerializedStands(link: Link)
    requires WellFormed(link)
    ensures PartsStand(Serialized(link), link, FlagsOfLink(link))
  {
    var flags := FlagsOfLink(link);
    JoinedStand(Serialized(link), HeaderBytes(link), IdListBytes(flags, link.idList), LinkInfoBytes(flags, link.linkInfo),
                StringsBytes(link.strings, flags.strings, flags.unicode), BlocksBytes(link.blocks) + link.tail);
  }

  lemma ReadsRest(
    bytes: seq<Byte>, flags: AllFlags, start: nat, strings: seq<seq<nat>>, blocks: seq<Block>, tail: seq<Byte>)
    requires HeaderFlags(bytes) == Ok(flags) && StringsStart(bytes, flags) == Ok(start)
    requires |strings| == FIELDS && FitStrings(strings, flags.unicode)
    requires forall i | 0 <= i < |blocks| :: FitsBlock(blocks[i])
    requires |tail| < 4 || U32At(tail, 0).value < 8
    requires var end := start + |StringsBytes(strings, flags.strings, flags.unicode)|;
             && Stands(bytes, start, StringsBytes(strings, flags.strings, flags.unicode))
             && Stands(bytes, end, BlocksBytes(blocks) + tail) && end + |BlocksBytes(blocks)| + |tail| == |bytes|
    ensures Read(bytes)
            == Ok(WithBlocks(Facts(flags.expString, flags.expIcon, IconFrom(strings, flags.strings, None)), blocks))
  {
    var end := start + |StringsBytes(strings, flags.strings, flags.unicode)|;
    var icon := IconFrom(strings, flags.strings, None);
    var facts := Facts(flags.expString, flags.expIcon, icon);
    ReadsStrings(bytes, strings, flags.strings, flags.unicode, start, None);
    ReadsBlocks(bytes, end, blocks, tail, facts);
    Assembled(bytes, flags, start, end, icon, WithBlocks(facts, blocks));
  }

  lemma ReadsParts(bytes: seq<Byte>, link: Link, flags: AllFlags)
    requires FitsFlags(link, flags) && HeaderFlags(bytes) == Ok(flags) && PartsStand(bytes, link, flags)
    ensures Read(bytes)
            == Ok(WithBlocks(Facts(flags.expString, flags.expIcon, IconFrom(link.strings, flags.strings, None)), link.blocks))
  {
    HeaderLength(link);
    ReadsStart(bytes, flags, link.idList, link.linkInfo);
    var start := HEADER_SIZE + |IdListBytes(flags, link.idList)| + |LinkInfoBytes(flags, link.linkInfo)|;
    ReadsRest(bytes, flags, start, link.strings, link.blocks, link.tail);
  }

  /**
   * Every well-formed link reads back as exactly what it says: whether its target or icon is named
   * through an environment block, by flag or by block, and its icon path without trailing NULs.
   */
  lemma ReadsBack(link: Link)
    requires WellFormed(link)
    ensures Read(Serialized(link)) == Ok(FactsOf(link))
  {
    SerializedStands(link);
    ReadsHeader(Serialized(link), link);
    ReadsParts(Serialized(link), link, FlagsOfLink(link));
  }
}
