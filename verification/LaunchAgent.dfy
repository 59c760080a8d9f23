/**
 * The macOS launch agent, crates/asli-app/src/autostart.rs (module launch_agent): the property list
 * written for a program, and the program read back from it.
 */
module LaunchAgent {
  import opened Options

  // ------------------------------------------------------------------ searching and replacing

  predicate StartsWith(s: string, pattern: string) {
    |pattern| <= |s| && s[..|pattern|] == pattern
  }

  /** Every occurrence of `pattern`, from the left and never overlapping, becomes `with`. */
  function Replaced(s: string, pattern: string, with: string): string
    requires pattern != ""
    decreases |s|
  {
    if s == "" then ""
    else if StartsWith(s, pattern) then with + Replaced(s[|pattern|..], pattern, with)
    else [s[0]] + Replaced(s[1..], pattern, with)
  }

  /** What stands behind the first occurrence of `pattern`. */
  function After(s: string, pattern: string): Option<string> {
    if StartsWith(s, pattern) then Some(s[|pattern|..])
    else if s == "" then None
    else After(s[1..], pattern)
  }

  /** What stands before the first occurrence of `pattern`. */
  function Before(s: string, pattern: string): Option<string> {
    if StartsWith(s, pattern) then Some("")
    else if s == "" then None
    else
      match Before(s[1..], pattern)
      case None => None
      case Some(t) => Some([s[0]] + t)
  }

  // ------------------------------------------------------------------ escaping

  function Entity(c: char): string {
    if c == '&' then "&amp;" else if c == '<' then "&lt;" else "&gt;"
  }

  /** The three replacements that escape a text, ampersand first. */
  function Xml(text: string): string {
    Replaced(Replaced(Replaced(text, "&", "&amp;"), "<", "&lt;"), ">", "&gt;")
  }

  function Unxml(text: string): string {
    Replaced(Replaced(Replaced(text, "&lt;", "<"), "&gt;", ">"), "&amp;", "&")
  }

  /** `s` with just the characters in `which` written as entities. */
  function Encoded(s: string, which: set<char>): string {
    if s == "" then ""
    else (if s[0] in which then Entity(s[0]) else [s[0]]) + Encoded(s[1..], which)
  }

  const MARKS: set<char> := {'&', '<', '>'}

  lemma Differs(s: string, pattern: string, k: nat)
    requires k < |s| && k < |pattern| && s[k] != pattern[k]
    ensures !StartsWith(s, pattern)
  {
    if |pattern| <= |s| {
      assert s[..|pattern|][k] == s[k];
    }
  }

  lemma {:induction false} SkipsPlain(plain: string, rest: string, pattern: string, with: string)
    requires pattern != "" && pattern[0] !in plain
    ensures Replaced(plain + rest, pattern, with) == plain + Replaced(rest, pattern, with)
  {
    if plain == "" {
      assert plain + rest == rest;
    } else {
      Differs(plain + rest, pattern, 0);
      assert (plain + rest)[1..] == plain[1..] + rest;
      SkipsPlain(plain[1..], rest, pattern, with);
    }
  }

  lemma ReplacesFront(pattern: string, rest: string, with: string)
    requires pattern != ""
    ensures Replaced(pattern + rest, pattern, with) == with + Replaced(rest, pattern, with)
  {
    assert (pattern + rest)[|pattern|..] == rest;
  }

  lemma SkipsMarked(mark: char, plain: string, rest: string, pattern: string, with: string)
    requires pattern != "" && pattern[0] !in plain && !StartsWith([mark] + (plain + rest), pattern)
    ensures Replaced([mark] + plain + rest, pattern, with) == [mark] + plain + Replaced(rest, pattern, with)
  {
    var s := [mark] + (plain + rest);
    assert s == [mark] + plain + rest && s[1..] == plain + rest;
    SkipsPlain(plain, rest, pattern, with);
  }

  function EntityName(c: char): string {
    if c == '&' then "amp;" else if c == '<' then "lt;" else "gt;"
  }

  lemma EntityParts(c: char)
    ensures Entity(c) == ['&'] + EntityName(c) && '&' !in EntityName(c)
  {
  }

  /** An entity is passed over by the search for another one. */
  lemma OtherEntity(x: char, c: char, rest: string, with: string)
    requires x in MARKS && c in MARKS && x != c
    ensures Replaced(Entity(x) + rest, Entity(c), with) == Entity(x) + Replaced(rest, Entity(c), with)
  {
    EntityParts(x);
    EntityParts(c);
    var s := ['&'] + (EntityName(x) + rest);
    assert s[1] == EntityName(x)[0] && Entity(c)[1] == EntityName(c)[0];
    Differs(s, Entity(c), 1);
    SkipsMarked('&', EntityName(x), rest, Entity(c), with);
  }

  /** Escaping one more character, which no entity so far holds. */
  lemma {:induction false} EncodesOne(s: string, which: set<char>, c: char)
    requires which <= MARKS && c in MARKS && c !in which && (c == '&' ==> which == {})
    ensures Replaced(Encoded(s, which), [c], Entity(c)) == Encoded(s, which + {c})
  {
    if s != "" {
      var rest := Encoded(s[1..], which);
      EncodesOne(s[1..], which, c);
      if s[0] in which {
        assert c !in "&amp;" && c !in "&lt;" && c !in "&gt;";
        SkipsPlain(Entity(s[0]), rest, [c], Entity(c));
      } else if s[0] == c {
        ReplacesFront([c], rest, Entity(c));
      } else {
        SkipsPlain([s[0]], rest, [c], Entity(c));
      }
    }
  }

  /** Reading one entity back, while every ampersand of the text itself is still escaped. */
  lemma {:induction false} DecodesOne(s: string, which: set<char>, c: char)
    requires which <= MARKS && c in which && '&' in which
    ensures Replaced(Encoded(s, which), Entity(c), [c]) == Encoded(s, which - {c})
  {
    if s != "" {
      var rest := Encoded(s[1..], which);
      DecodesOne(s[1..], which, c);
      if s[0] == c {
        ReplacesFront(Entity(c), rest, [c]);
      } else if s[0] in which {
        OtherEntity(s[0], c, rest, [c]);
      } else {
        SkipsPlain([s[0]], rest, Entity(c), [c]);
      }
    }
  }

  lemma {:induction false} NothingEncoded(s: string)
    ensures Encoded(s, {}) == s
  {
    if s != "" {
      NothingEncoded(s[1..]);
    }
  }

  /** The chain of replacements writes each of the three characters as its entity, and no other. */
  lemma XmlEncodes(text: string)
    ensures Xml(text) == Encoded(text, MARKS)
  {
    NothingEncoded(text);
    EncodesOne(text, {}, '&');
    EncodesOne(text, {'&'}, '<');
    EncodesOne(text, {'&', '<'}, '>');
    assert {} + {'&'} == {'&'} && {'&'} + {'<'} == {'&', '<'} && {'&', '<'} + {'>'} == MARKS;
  }

  /** Escaping and reading back gives the text, even one that holds entities of its own. */
  lemma XmlRoundTrip(text: string)
    ensures Unxml(Xml(text)) == text
  {
    XmlEncodes(text);
    DecodesOne(text, MARKS, '<');
    DecodesOne(text, {'&', '>'}, '>');
    DecodesOne(text, {'&'}, '&');
    assert MARKS - {'<'} == {'&', '>'} && {'&', '>'} - {'>'} == {'&'} && {'&'} - {'&'} == {};
    NothingEncoded(text);
  }

  lemma {:induction false} NoTagInside(s: string)
    ensures '<' !in Encoded(s, MARKS)
  {
    if s != "" {
      NoTagInside(s[1..]);
    }
  }

  // ------------------------------------------------------------------ the property list

  const KEY: string := "<key>" + ("ProgramArguments" + "</key>")

  /** Tags and the text behind each, every one starting at its opening bracket. */
  function Pieces(bodies: seq<string>, rest: string): string {
    if bodies == [] then rest else "<" + (bodies[0] + Pieces(bodies[1..], rest))
  }

  const XML: string := "?xml version=\"1.0\" " + "encoding=\"UTF-8\"?>\n"
  const DOCTYPE: string :=
    "!DOCTYPE plist PUBLIC \"-" + ("//Apple//DTD PLIST 1.0" + ("//EN\" \"http://www.apple.com" + "/DTDs/PropertyList-1.0.dtd\">\n"))
  const HEAD: seq<string> := [
    XML, DOCTYPE, "plist version=\"1.0\">\n", "dict>\n\t", "key>Label", "/key>\n\t", "string>dev.vnat.asli", "/string>\n\t"]

  function Program(exe: string): seq<string> {
    ["array>\n\t\t", "string>" + Xml(exe), "/string>"]
  }

  function Tail(log: string): string {
    "\n\t\t<string>tray</string>\n\t</array>\n\t<key>RunAtLoad</key>\n\t<true/>\n\t<key>KeepAlive</key>\n\t<false/>"
    + "\n\t<key>ProcessType</key>\n\t<string>Interactive</string>\n\t<key>LimitLoadToSessionType</key>"
    + "\n\t<string>Aqua</string>\n\t<key>StandardOutPath</key>\n\t<string>" + Xml(log)
    + "</string>\n\t<key>StandardErrorPath</key>\n\t<string>" + Xml(log) + "</string>\n</dict>\n</plist>\n"
  }

  function Contents(exe: string, log: string): string {
    Pieces(HEAD, KEY + ("\n\t" + Pieces(Program(exe), Tail(log))))
  }

  /** The text between the first occurrence of the key and the next, or the end. */
  function Section(text: string): Option<string> {
    match After(text, KEY)
    case None => None
    case Some(after) => if Before(after, KEY).Some? then Before(after, KEY) else Some(after)
  }

  /** The first string behind the key, unescaped. */
  function TargetIn(text: string): Option<string> {
    match Section(text)
    case None => None
    case Some(section) =>
      match After(section, "<string>")
      case None => None
      case Some(start) =>
        match Before(start, "</string>")
        case None => None
        case Some(escaped) => Some(Unxml(escaped))
  }

  lemma {:induction false} PassesPlain(plain: string, rest: string, pattern: string)
    requires pattern != "" && pattern[0] !in plain
    ensures After(plain + rest, pattern) == After(rest, pattern)
    ensures Before(rest, pattern).None? ==> Before(plain + rest, pattern).None?
    ensures Before(rest, pattern).Some? ==> Before(plain + rest, pattern) == Some(plain + Before(rest, pattern).value)
  {
    if plain == "" {
      assert plain + rest == rest;
      assert Before(rest, pattern).Some? ==> plain + Before(rest, pattern).value == Before(rest, pattern).value;
    } else {
      Differs(plain + rest, pattern, 0);
      assert (plain + rest)[1..] == plain[1..] + rest;
      PassesPlain(plain[1..], rest, pattern);
      if Before(rest, pattern).Some? {
        assert [plain[0]] + (plain[1..] + Before(rest, pattern).value) == plain + Before(rest, pattern).value;
      }
    }
  }

  lemma PassesTag(body: string, rest: string, pattern: string)
    requires pattern != "" && pattern[0] !in body && !StartsWith("<" + (body + rest), pattern)
    ensures After("<" + (body + rest), pattern) == After(rest, pattern)
    ensures Before(rest, pattern).None? ==> Before("<" + (body + rest), pattern).None?
    ensures Before(rest, pattern).Some? ==>
              Before("<" + (body + rest), pattern) == Some("<" + (body + Before(rest, pattern).value))
  {
    assert ("<" + (body + rest))[1..] == body + rest;
    PassesPlain(body, rest, pattern);
  }

  /** A tag other than the key's. */
  predicate OtherTag(body: string) {
    '<' !in body && |body| > 4 && (body[0] != 'k' || body[4] != 'P')
  }

  predicate OtherTags(bodies: seq<string>) {
    bodies != [] ==> OtherTag(bodies[0]) && OtherTags(bodies[1..])
  }

  lemma NotTheKey(body: string, rest: string)
    requires OtherTag(body)
    ensures KEY[0] !in body && !StartsWith("<" + (body + rest), KEY)
  {
    var s := "<" + (body + rest);
    assert KEY[0] == "<key>"[0] && KEY[1] == "<key>"[1] && KEY[5] == "ProgramArguments"[0];
    assert s[1] == body[0] && s[5] == body[4];
    Differs(s, KEY, if body[0] != 'k' then 1 else 5);
  }

  lemma {:induction false} PassesTags(bodies: seq<string>, rest: string)
    requires OtherTags(bodies)
    ensures After(Pieces(bodies, rest), KEY) == After(rest, KEY)
    ensures Before(rest, KEY).None? ==> Before(Pieces(bodies, rest), KEY).None?
    ensures Before(rest, KEY).Some? ==>
              Before(Pieces(bodies, rest), KEY) == Some(Pieces(bodies, Before(rest, KEY).value))
  {
    if bodies != [] {
      PassesTags(bodies[1..], rest);
      NotTheKey(bodies[0], Pieces(bodies[1..], rest));
      PassesTag(bodies[0], Pieces(bodies[1..], rest), KEY);
    }
  }

  lemma Joined(a: string, b: string)
    requires OtherTag(a) && '<' !in b
    ensures OtherTag(a + b)
  {
  }

  lemma XmlIsOther()
    ensures OtherTag(XML)
  {
    Joined("?xml version=\"1.0\" ", "encoding=\"UTF-8\"?>\n");
  }

  lemma DoctypeIsOther()
    ensures OtherTag(DOCTYPE)
  {
    var a, b, c, d :=
      "!DOCTYPE plist PUBLIC \"-", "//Apple//DTD PLIST 1.0", "//EN\" \"http://www.apple.com", "/DTDs/PropertyList-1.0.dtd\">\n";
    Joined(a, b + (c + d));
  }

  lemma HeadIsOther()
    ensures OtherTags(HEAD)
  {
    XmlIsOther();
    DoctypeIsOther();
    var c, d, e, f := "plist version=\"1.0\">\n", "dict>\n\t", "key>Label", "/key>\n\t";
    var g, h := "string>dev.vnat.asli", "/string>\n\t";
    assert OtherTag(c) && OtherTag(d) && OtherTag(e) && OtherTag(f) && OtherTag(g) && OtherTag(h);
    Eight(XML, DOCTYPE, c, d, e, f, g, h);
  }

  lemma Eight(a: string, b: string, c: string, d: string, e: string, f: string, g: string, h: string)
    requires OtherTag(a) && OtherTag(b) && OtherTag(c) && OtherTag(d)
    requires OtherTag(e) && OtherTag(f) && OtherTag(g) && OtherTag(h)
    ensures OtherTags([a, b, c, d, e, f, g, h])
  {
    AllOther([a, b, c, d, e, f, g, h]);
  }

  lemma {:induction false} AllOther(bodies: seq<string>)
    requires forall i | 0 <= i < |bodies| :: OtherTag(bodies[i])
    ensures OtherTags(bodies)
  {
    if bodies != [] {
      AllOther(bodies[1..]);
    }
  }

  lemma StartsThere(pattern: string, rest: string)
    ensures StartsWith(pattern + rest, pattern) && (pattern + rest)[|pattern|..] == rest
  {
  }

  lemma ProgramIsOther(exe: string)
    ensures OtherTags(Program(exe)) && '<' !in Xml(exe)
  {
    XmlEncodes(exe);
    NoTagInside(exe);
    assert OtherTag("array>\n\t\t") && OtherTag("/string>") && '<' !in "string>";
    assert ("string>" + Xml(exe))[0] == 's';
    AllOther(Program(exe));
  }

  /** The section behind the key starts with the program's element, whatever follows. */
  lemma SectionStarts(head: seq<string>, between: string, program: seq<string>, tail: string) returns (rest: string)
    requires OtherTags(head) && OtherTags(program) && KEY[0] !in between
    ensures Section(Pieces(head, KEY + (between + Pieces(program, tail)))) == Some(between + Pieces(program, rest))
  {
    var after := between + Pieces(program, tail);
    PassesTags(head, KEY + after);
    StartsThere(KEY, after);
    PassesTags(program, tail);
    PassesPlain(between, Pieces(program, tail), KEY);
    rest := if Before(tail, KEY).Some? then Before(tail, KEY).value else tail;
  }

  lemma ProgramFound(escaped: string, rest: string)
    requires '<' !in escaped
    ensures After("\n\t" + Pieces(["array>\n\t\t", "string>" + escaped, "/string>"], rest), "<string>")
            == Some(escaped + ("</string>" + rest))
  {
    var bodies := ["array>\n\t\t", "string>" + escaped, "/string>"];
    assert bodies[1..] == ["string>" + escaped, "/string>"] && bodies[1..][1..] == ["/string>"];
    assert ["/string>"][1..] == [];
    var closing := "<" + ("/string>" + rest);
    assert Pieces(["/string>"], rest) == closing;
    assert closing == "</string>" + rest;
    var element := "<" + (("string>" + escaped) + closing);
    assert Pieces(bodies[1..], rest) == element;
    assert element == "<string>" + (escaped + closing);
    StartsThere("<string>", escaped + closing);
    Differs("<" + ("array>\n\t\t" + element), "<string>", 1);
    PassesTag("array>\n\t\t", element, "<string>");
    PassesPlain("\n\t", Pieces(bodies, rest), "<string>");
  }

  lemma TargetFrom(text: string, section: string, escaped: string, rest: string)
    requires Section(text) == Some(section) && '<' !in escaped
    requires After(section, "<string>") == Some(escaped + ("</string>" + rest))
    ensures TargetIn(text) == Some(Unxml(escaped))
  {
    StartsThere("</string>", rest);
    PassesPlain(escaped, "</string>" + rest, "</string>");
    assert escaped + "" == escaped;
  }

  /** Whatever the program's path and the log's, the agent's program reads back as that path. */
  lemma AgentRoundTrip(exe: string, log: string)
    ensures TargetIn(Contents(exe, log)) == Some(exe)
  {
    HeadIsOther();
    ProgramIsOther(exe);
    assert KEY[0] == "<key>"[0] == '<';
    var rest := SectionStarts(HEAD, "\n\t", Program(exe), Tail(log));
    ProgramFound(Xml(exe), rest);
    TargetFrom(Contents(exe, log), "\n\t" + Pieces(Program(exe), rest), Xml(exe), rest);
    XmlRoundTrip(exe);
  }
}
