/**
 * Which byte strings the shortcut reader of crates/asli-app/src/shortcut.rs takes for links, and what it
 * reads in them, by where their parts stand.
 */
module ShellLinkLayout {
  import opened Options
  import opened ShellLink

  predicate Fits(bytes: seq<Byte>, at: nat, len: nat) {
    at + len <= |bytes|
  }

  function Num16(bytes: seq<Byte>, at: nat): nat
    requires Fits(bytes, at, 2)
  {
    bytes[at] as nat + 256 * bytes[at + 1] as nat
  }

  function Num32(bytes: seq<Byte>, at: nat): nat
    requires Fits(bytes, at, 4)
  {
    Num16(bytes, at) + 0x1_0000 * Num16(bytes, at + 2)
  }

  // ------------------------------------------------------------------ the header

  predicate HasHeader(bytes: seq<Byte>) {
    Fits(bytes, 0, 24) && Num32(bytes, 0) == HEADER_SIZE && bytes[4..20] == LINK_CLSID
  }

  /** There is enough to see that this is no link: another size, or another class. */
  predicate HasAnotherHeader(bytes: seq<Byte>) {
    Fits(bytes, 0, 4) && (Num32(bytes, 0) != HEADER_SIZE || (Fits(bytes, 4, 16) && bytes[4..20] != LINK_CLSID))
  }

  predicate HasFlag(word: nat, mask: nat)
    requires mask > 0
  {
    word / mask % 2 == 1
  }

  lemma Powers()
    ensures PowerOfTwo(0) == 0x1 && PowerOfTwo(1) == 0x2 && PowerOfTwo(2) == 0x4 && PowerOfTwo(3) == 0x8
    ensures PowerOfTwo(4) == 0x10 && PowerOfTwo(5) == 0x20 && PowerOfTwo(6) == 0x40 && PowerOfTwo(7) == 0x80
    ensures PowerOfTwo(9) == 0x200 && PowerOfTwo(14) == 0x4000
  {
    assert PowerOfTwo(12) == 0x1000;
  }

  lemma FlagIs(word: nat, k: nat, mask: nat)
    requires k < 15 && PowerOfTwo(k) == mask
    ensures mask > 0 && Bits(word, 15)[k] == HasFlag(word, mask)
  {
    BitIsMasked(word, 15, k);
  }

  lemma FieldFlags(word: nat)
    ensures FlagsOf(word).strings
            == [HasFlag(word, 0x4), HasFlag(word, 0x8), HasFlag(word, 0x10), HasFlag(word, 0x20), HasFlag(word, 0x40)]
  {
    Powers();
    FlagIs(word, 2, 0x4);
    FlagIs(word, 3, 0x8);
    FlagIs(word, 4, 0x10);
    FlagIs(word, 5, 0x20);
    FlagIs(word, 6, 0x40);
    var bits := Bits(word, 15);
    assert bits[2..7] == [bits[2], bits[3], bits[4], bits[5], bits[6]];
  }

  /** Each flag is the one with its mask in LinkFlags, section 2.1.1 of [MS-SHLLINK]. */
  lemma FlagsAreMasked(word: nat)
    ensures var f := FlagsOf(word);
            && f.idList == HasFlag(word, 0x1) && f.linkInfo == HasFlag(word, 0x2)
            && f.strings == [HasFlag(word, 0x4), HasFlag(word, 0x8), HasFlag(word, 0x10), HasFlag(word, 0x20), HasFlag(word, 0x40)]
            && f.unicode == HasFlag(word, 0x80) && f.expString == HasFlag(word, 0x200) && f.expIcon == HasFlag(word, 0x4000)
  {
    FieldFlags(word);
    Powers();
    FlagIs(word, 0, 0x1);
    FlagIs(word, 1, 0x2);
    FlagIs(word, 7, 0x80);
    FlagIs(word, 9, 0x200);
    FlagIs(word, 14, 0x4000);
  }

  lemma ReadsNum16(bytes: seq<Byte>, at: nat)
    ensures U16At(bytes, at) == if Fits(bytes, at, 2) then Ok(Num16(bytes, at)) else Err(EndsEarly(at))
  {
  }

  lemma ReadsNum32(bytes: seq<Byte>, at: nat)
    ensures U32At(bytes, at) == if Fits(bytes, at, 4) then Ok(Num32(bytes, at)) else Err(EndsEarly(at))
  {
  }

  lemma HeaderExactly(bytes: seq<Byte>)
    ensures HeaderFlags(bytes).Ok? <==> HasHeader(bytes)
    ensures HasHeader(bytes) ==> HeaderFlags(bytes) == Ok(FlagsOf(Num32(bytes, 0x14)))
    ensures HeaderFlags(bytes) == Err(NoHeader) <==> HasAnotherHeader(bytes)
  {
    ReadsNum32(bytes, 0);
    ReadsNum32(bytes, 0x14);
  }

  // ------------------------------------------------------------------ the parts behind it

  /** Where the id list ends, where each string field starts and the last ends, and where each block starts. */
  datatype Layout = Layout(list: nat, fields: seq<nat>, blocks: seq<nat>)

  /** The id list counts what is behind its size, the link info all of itself. */
  predicate StartsAt(bytes: seq<Byte>, flags: AllFlags, list: nat, start: nat) {
    && (if flags.idList then Fits(bytes, HEADER_SIZE, 2) && list == HEADER_SIZE + 2 + Num16(bytes, HEADER_SIZE)
        else list == HEADER_SIZE)
    && (if flags.linkInfo then Fits(bytes, list, 4) && start == list + Num32(bytes, list) else start == list)
  }

  /** Two bytes a character, or one. */
  function Length(count: nat, unicode: bool): nat {
    if unicode then count * 2 else count
  }

  /** A field that is present is its count and that many characters, all within the file. */
  predicate FieldAt(bytes: seq<Byte>, present: bool, unicode: bool, at: nat, next: nat) {
    if present then
      Fits(bytes, at, 2) && next == at + 2 + Length(Num16(bytes, at), unicode) && next <= |bytes|
    else next == at
  }

  ghost predicate FieldsAt(bytes: seq<Byte>, present: seq<bool>, unicode: bool, stops: seq<nat>) {
    |stops| == |present| + 1
    && forall i | 0 <= i < |present| :: FieldAt(bytes, present[i], unicode, stops[i], stops[i + 1])
  }

  /** A block is at least its size and its signature; the file ends, or a shorter one stands, behind the last. */
  predicate BlockAt(bytes: seq<Byte>, at: nat, next: nat) {
    Fits(bytes, at, 8) && Num32(bytes, at) >= 8 && next == at + Num32(bytes, at)
  }

  predicate LastAt(bytes: seq<Byte>, at: nat) {
    Fits(bytes, at, 4) ==> Num32(bytes, at) < 8
  }

  ghost predicate BlocksStand(bytes: seq<Byte>, stops: seq<nat>) {
    stops != [] && LastAt(bytes, stops[|stops| - 1])
    && forall k | 0 <= k < |stops| - 1 :: BlockAt(bytes, stops[k], stops[k + 1])
  }

  ghost predicate SignedAt(bytes: seq<Byte>, stops: seq<nat>, signature: nat) {
    exists k | 0 <= k < |stops| - 1 :: Fits(bytes, stops[k] + 4, 4) && Num32(bytes, stops[k] + 4) == signature
  }

  ghost predicate LaidOut(bytes: seq<Byte>, flags: AllFlags, layout: Layout) {
    && FieldsAt(bytes, flags.strings, flags.unicode, layout.fields)
    && StartsAt(bytes, flags, layout.list, layout.fields[0])
    && BlocksStand(bytes, layout.blocks) && layout.blocks[0] == layout.fields[FIELDS]
  }

  /** What is read in a link: its flags and signed blocks, and the last field without trailing NULs. */
  ghost function FactsIn(bytes: seq<Byte>, flags: AllFlags, layout: Layout): Facts
    requires LaidOut(bytes, flags, layout)
  {
    Facts(
      flags.expString || SignedAt(bytes, layout.blocks, ENVIRONMENT_BLOCK),
      flags.expIcon || SignedAt(bytes, layout.blocks, ICON_ENVIRONMENT_BLOCK),
      if flags.strings[ICON_FIELD] then
        assert FieldAt(bytes, true, flags.unicode, layout.fields[ICON_FIELD], layout.fields[ICON_FIELD + 1]);
        Some(TrimNuls(Units(bytes[layout.fields[ICON_FIELD] + 2..layout.fields[ICON_FIELD + 1]], flags.unicode)))
      else None)
  }

  // ------------------------------------------------------------------ the reader finds exactly these

  lemma StartExactly(bytes: seq<Byte>, flags: AllFlags, list: nat, start: nat)
    ensures StartsAt(bytes, flags, list, start) ==> StringsStart(bytes, flags) == Ok(start)
  {
    ReadsNum16(bytes, HEADER_SIZE);
    ReadsNum32(bytes, list);
  }

  lemma StartFound(bytes: seq<Byte>, flags: AllFlags) returns (list: nat)
    requires StringsStart(bytes, flags).Ok?
    ensures StartsAt(bytes, flags, list, StringsStart(bytes, flags).value)
  {
    ReadsNum16(bytes, HEADER_SIZE);
    list := if flags.idList then HEADER_SIZE + 2 + Num16(bytes, HEADER_SIZE) else HEADER_SIZE;
    ReadsNum32(bytes, list);
  }

  lemma FieldExactly(bytes: seq<Byte>, unicode: bool, at: nat)
    ensures StringAt(bytes, unicode, at).Ok? ==>
              var end := StringAt(bytes, unicode, at).value.end;
              && FieldAt(bytes, true, unicode, at, end) && at + 2 <= end
              && StringAt(bytes, unicode, at).value.units == Units(bytes[at + 2..end], unicode)
    ensures StringAt(bytes, unicode, at).Err? ==> forall next :: !FieldAt(bytes, true, unicode, at, next)
  {
    ReadsNum16(bytes, at);
  }

  /** The icon location after the remaining fields: the last one, if it is present. */
  ghost function IconAt(bytes: seq<Byte>, present: seq<bool>, unicode: bool, stops: seq<nat>, icon: Option<seq<nat>>)
    : Option<seq<nat>>
    requires FieldsAt(bytes, present, unicode, stops)
  {
    if present != [] && present[|present| - 1] then
      var last := |present| - 1;
      assert FieldAt(bytes, present[last], unicode, stops[last], stops[last + 1]);
      Some(TrimNuls(Units(bytes[stops[last] + 2..stops[last + 1]], unicode)))
    else icon
  }

  lemma FieldsRest(bytes: seq<Byte>, present: seq<bool>, unicode: bool, stops: seq<nat>)
    requires FieldsAt(bytes, present, unicode, stops) && present != []
    ensures FieldsAt(bytes, present[1..], unicode, stops[1..]) && FieldAt(bytes, present[0], unicode, stops[0], stops[1])
  {
    forall i | 0 <= i < |present| - 1
      ensures FieldAt(bytes, present[1..][i], unicode, stops[1..][i], stops[1..][i + 1])
    {
      assert FieldAt(bytes, present[i + 1], unicode, stops[i + 1], stops[i + 2]);
    }
  }

  lemma {:induction false} FieldsExactly(
    bytes: seq<Byte>, present: seq<bool>, unicode: bool, stops: seq<nat>, icon: Option<seq<nat>>)
    requires FieldsAt(bytes, present, unicode, stops)
    ensures StringsAt(bytes, present, unicode, stops[0], icon)
            == Ok(Strings(stops[|present|], IconAt(bytes, present, unicode, stops, icon)))
    decreases |present|
  {
    if present != [] {
      FieldsRest(bytes, present, unicode, stops);
      FieldExactly(bytes, unicode, stops[0]);
      var next :=
        if present[0] && |present| == 1 then Some(TrimNuls(Units(bytes[stops[0] + 2..stops[1]], unicode))) else icon;
      FieldsExactly(bytes, present[1..], unicode, stops[1..], next);
    }
  }

  lemma {:induction false} FieldsFound(
    bytes: seq<Byte>, present: seq<bool>, unicode: bool, at: nat, icon: Option<seq<nat>>) returns (stops: seq<nat>)
    requires StringsAt(bytes, present, unicode, at, icon).Ok?
    ensures FieldsAt(bytes, present, unicode, stops) && stops[0] == at
    decreases |present|
  {
    stops := [at];
    if present != [] {
      FieldExactly(bytes, unicode, at);
      var rest: seq<nat>;
      if present[0] {
        var text := StringAt(bytes, unicode, at).value;
        rest := FieldsFound(bytes, present[1..], unicode, text.end, if |present| == 1 then Some(TrimNuls(text.units)) else icon);
      } else {
        rest := FieldsFound(bytes, present[1..], unicode, at, icon);
      }
      stops := [at] + rest;
      forall i | 0 <= i < |present|
        ensures FieldAt(bytes, present[i], unicode, stops[i], stops[i + 1])
      {
        if i > 0 {
          assert FieldAt(bytes, present[1..][i - 1], unicode, rest[i - 1], rest[i]);
        }
      }
    }
  }

  ghost function FactsBehind(bytes: seq<Byte>, stops: seq<nat>, facts: Facts): Facts {
    facts.(targetEnvironment := facts.targetEnvironment || SignedAt(bytes, stops, ENVIRONMENT_BLOCK),
           iconEnvironment := facts.iconEnvironment || SignedAt(bytes, stops, ICON_ENVIRONMENT_BLOCK))
  }

  lemma SignedAtFirst(bytes: seq<Byte>, stops: seq<nat>, signature: nat)
    requires |stops| > 1 && Fits(bytes, stops[0] + 4, 4)
    ensures SignedAt(bytes, stops, signature)
            <==> Num32(bytes, stops[0] + 4) == signature || SignedAt(bytes, stops[1..], signature)
  {
    var rest := stops[1..];
    if SignedAt(bytes, stops, signature) && Num32(bytes, stops[0] + 4) != signature {
      var k :| 0 <= k < |stops| - 1 && Fits(bytes, stops[k] + 4, 4) && Num32(bytes, stops[k] + 4) == signature;
      assert rest[k - 1] == stops[k];
    }
    if SignedAt(bytes, rest, signature) {
      var k :| 0 <= k < |rest| - 1 && Fits(bytes, rest[k] + 4, 4) && Num32(bytes, rest[k] + 4) == signature;
      assert stops[k + 1] == rest[k];
    }
  }

  lemma BlocksRest(bytes: seq<Byte>, stops: seq<nat>)
    requires BlocksStand(bytes, stops) && |stops| > 1
    ensures BlocksStand(bytes, stops[1..]) && BlockAt(bytes, stops[0], stops[1])
  {
    forall k | 0 <= k < |stops| - 2
      ensures BlockAt(bytes, stops[1..][k], stops[1..][k + 1])
    {
      assert BlockAt(bytes, stops[k + 1], stops[k + 2]);
    }
  }

  lemma {:induction false} BlocksExactly(bytes: seq<Byte>, stops: seq<nat>, facts: Facts)
    requires BlocksStand(bytes, stops)
    ensures BlocksAt(bytes, stops[0], facts) == Ok(FactsBehind(bytes, stops, facts))
    decreases |stops|
  {
    ReadsNum32(bytes, stops[0]);
    ReadsNum32(bytes, stops[0] + 4);
    if |stops| > 1 {
      BlocksRest(bytes, stops);
      var signature := Num32(bytes, stops[0] + 4);
      BlocksExactly(bytes, stops[1..], WithBlock(facts, signature));
      SignedAtFirst(bytes, stops, ENVIRONMENT_BLOCK);
      SignedAtFirst(bytes, stops, ICON_ENVIRONMENT_BLOCK);
    }
  }

  lemma {:induction false} BlocksFound(bytes: seq<Byte>, at: nat, facts: Facts) returns (stops: seq<nat>)
    requires BlocksAt(bytes, at, facts).Ok?
    ensures BlocksStand(bytes, stops) && stops[0] == at
    decreases |bytes| - at
  {
    ReadsNum32(bytes, at);
    ReadsNum32(bytes, at + 4);
    stops := [at];
    if Fits(bytes, at, 4) && Num32(bytes, at) >= 8 {
      var rest := BlocksFound(bytes, at + Num32(bytes, at), WithBlock(facts, Num32(bytes, at + 4)));
      stops := [at] + rest;
      forall k | 0 <= k < |stops| - 1
        ensures BlockAt(bytes, stops[k], stops[k + 1])
      {
        if k > 0 {
          assert BlockAt(bytes, rest[k - 1], rest[k]);
        }
      }
    }
  }

  lemma FactsAreThose(bytes: seq<Byte>, flags: AllFlags, layout: Layout, icon: Option<seq<nat>>)
    requires LaidOut(bytes, flags, layout) && icon == IconAt(bytes, flags.strings, flags.unicode, layout.fields, None)
    ensures FactsBehind(bytes, layout.blocks, Facts(flags.expString, flags.expIcon, icon)) == FactsIn(bytes, flags, layout)
  {
  }

  lemma LaidOutReads(bytes: seq<Byte>, layout: Layout)
    requires HasHeader(bytes) && LaidOut(bytes, FlagsOf(Num32(bytes, 0x14)), layout)
    ensures Read(bytes) == Ok(FactsIn(bytes, FlagsOf(Num32(bytes, 0x14)), layout))
  {
    var flags := FlagsOf(Num32(bytes, 0x14));
    HeaderExactly(bytes);
    StartExactly(bytes, flags, layout.list, layout.fields[0]);
    FieldsExactly(bytes, flags.strings, flags.unicode, layout.fields, None);
    var icon := IconAt(bytes, flags.strings, flags.unicode, layout.fields, None);
    var facts := Facts(flags.expString, flags.expIcon, icon);
    BlocksExactly(bytes, layout.blocks, facts);
    FactsAreThose(bytes, flags, layout, icon);
    Assembled(bytes, flags, layout.fields[0], layout.fields[FIELDS], icon, FactsIn(bytes, flags, layout));
  }

  lemma ReadIsLaidOut(bytes: seq<Byte>) returns (layout: Layout)
    requires Read(bytes).Ok?
    ensures HasHeader(bytes) && LaidOut(bytes, FlagsOf(Num32(bytes, 0x14)), layout)
  {
    HeaderExactly(bytes);
    var flags := FlagsOf(Num32(bytes, 0x14));
    var list := StartFound(bytes, flags);
    var start := StringsStart(bytes, flags).value;
    var fields := FieldsFound(bytes, flags.strings, flags.unicode, start, None);
    FieldsExactly(bytes, flags.strings, flags.unicode, fields, None);
    var strings := StringsAt(bytes, flags.strings, flags.unicode, start, None).value;
    var blocks := BlocksFound(bytes, strings.end, Facts(flags.expString, flags.expIcon, strings.icon));
    layout := Layout(list, fields, blocks);
  }

  /**
   * Of every byte string: it is read as these facts if and only if it has the header of a link and its
   * parts stand one behind another as its flags say, with those facts in them.
   */
  lemma ReadsExactly(bytes: seq<Byte>, facts: Facts)
    ensures Read(bytes) == Ok(facts)
            <==> HasHeader(bytes)
                 && var flags := FlagsOf(Num32(bytes, 0x14));
                    exists layout :: LaidOut(bytes, flags, layout) && facts == FactsIn(bytes, flags, layout)
  {
    if Read(bytes) == Ok(facts) {
      var layout := ReadIsLaidOut(bytes);
      LaidOutReads(bytes, layout);
    }
    if HasHeader(bytes) {
      var flags := FlagsOf(Num32(bytes, 0x14));
      forall layout | LaidOut(bytes, flags, layout)
        ensures Read(bytes) == Ok(FactsIn(bytes, flags, layout))
      {
        LaidOutReads(bytes, layout);
      }
    }
  }

  /** It is refused for its header exactly when that can be seen to be another one, and otherwise for ending early. */
  lemma RefusedExactlyWhen(bytes: seq<Byte>)
    ensures Read(bytes) == Err(NoHeader) <==> HasAnotherHeader(bytes)
    ensures Read(bytes).Err? && Read(bytes).error.EndsEarly?
            <==> !HasAnotherHeader(bytes)
                 && !(HasHeader(bytes) && exists layout :: LaidOut(bytes, FlagsOf(Num32(bytes, 0x14)), layout))
  {
    HeaderExactly(bytes);
    OnlyTheHeaderIsNone(bytes);
    if Read(bytes).Ok? {
      var layout := ReadIsLaidOut(bytes);
    }
    if HasHeader(bytes) {
      forall layout | LaidOut(bytes, FlagsOf(Num32(bytes, 0x14)), layout)
        ensures Read(bytes).Ok?
      {
        LaidOutReads(bytes, layout);
      }
    }
  }

  lemma OnlyTheHeaderIsNone(bytes: seq<Byte>)
    ensures Read(bytes) == Err(NoHeader) ==> HeaderFlags(bytes) == Err(NoHeader)
  {
    if HeaderFlags(bytes).Ok? {
      var flags := HeaderFlags(bytes).value;
      if StringsStart(bytes, flags).Ok? {
        var start := StringsStart(bytes, flags).value;
        StringsEndEarly(bytes, flags.strings, flags.unicode, start, None);
        if StringsAt(bytes, flags.strings, flags.unicode, start, None).Ok? {
          var strings := StringsAt(bytes, flags.strings, flags.unicode, start, None).value;
          BlocksEndEarly(bytes, strings.end, Facts(flags.expString, flags.expIcon, strings.icon));
        }
      }
    }
  }

  lemma {:induction false} StringsEndEarly(
    bytes: seq<Byte>, present: seq<bool>, unicode: bool, at: nat, icon: Option<seq<nat>>)
    ensures StringsAt(bytes, present, unicode, at, icon) != Err(NoHeader)
    decreases |present|
  {
    if present != [] {
      if !present[0] {
        StringsEndEarly(bytes, present[1..], unicode, at, icon);
      } else if StringAt(bytes, unicode, at).Ok? {
        var text := StringAt(bytes, unicode, at).value;
        StringsEndEarly(bytes, present[1..], unicode, text.end, if |present| == 1 then Some(TrimNuls(text.units)) else icon);
      }
    }
  }

  lemma {:induction false} BlocksEndEarly(bytes: seq<Byte>, at: nat, facts: Facts)
    ensures BlocksAt(bytes, at, facts) != Err(NoHeader)
    decreases |bytes| - at
  {
    ReadsNum32(bytes, at);
    ReadsNum32(bytes, at + 4);
    if Fits(bytes, at, 8) && Num32(bytes, at) >= 8 {
      BlocksEndEarly(bytes, at + Num32(bytes, at), WithBlock(facts, Num32(bytes, at + 4)));
    }
  }
}
