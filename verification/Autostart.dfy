/**
 * Starting at login, crates/asli-app/src/autostart.rs: the desktop entry's Exec line (Desktop Entry
 * Specification, "The Exec key"), written and read back.
 */
module Autostart {
  import opened Options

  // ------------------------------------------------------------------ quoting

  const RESERVED: string := " \t\n\"'\\><~|&;$*?#()`"

  predicate Reserved(c: char) {
    c in RESERVED
  }

  /** Doubles each percent sign, which is how a literal one is written. */
  function DoublePercents(s: string): string {
    if s == "" then "" else (if s[0] == '%' then "%%" else [s[0]]) + DoublePercents(s[1..])
  }

  /** Every pair of percent signs, from the left, becomes one. */
  function HalvePercents(s: string): string {
    if s == "" then ""
    else if |s| >= 2 && s[0] == '%' && s[1] == '%' then "%" + HalvePercents(s[2..])
    else [s[0]] + HalvePercents(s[1..])
  }

  /** Escaped once as an argument and once more as a value. */
  function Escape(c: char): string {
    if c == '"' || c == '`' || c == '$' then "\\\\" + [c]
    else if c == '\\' then "\\\\\\\\"
    else [c]
  }

  function Escaped(s: string): string {
    if s == "" then "" else Escape(s[0]) + Escaped(s[1..])
  }

  predicate AnyReserved(s: string) {
    s != "" && (Reserved(s[0]) || AnyReserved(s[1..]))
  }

  function Quoted(path: string): string {
    if AnyReserved(path) then "\"" + Escaped(DoublePercents(path)) + "\"" else DoublePercents(path)
  }

  /** How many backslashes `s` starts with, but at most `most`. */
  function BackslashRun(s: string, most: nat): (n: nat)
    ensures n <= |s| && n <= most
  {
    if s == "" || s[0] != '\\' || most == 0 then 0 else 1 + BackslashRun(s[1..], most - 1)
  }

  function Unescaped(s: string): string
    decreases |s|
  {
    if s == "" then ""
    else if s[0] != '\\' then [s[0]] + Unescaped(s[1..])
    else
      var run := BackslashRun(s, 4);
      if run == 4 then "\\" + Unescaped(s[4..])
      else if run < |s| then [s[run]] + Unescaped(s[run + 1..])
      else ""
  }

  predicate InQuotes(field: string) {
    |field| >= 2 && field[0] == '"' && field[|field| - 1] == '"'
  }

  function Unquoted(field: string): string {
    if InQuotes(field) then HalvePercents(Unescaped(field[1..|field| - 1])) else HalvePercents(field)
  }

  lemma Regrouped(a: string, b: string, c: string)
    ensures a + (b + c) == (a + b) + c
  {
  }

  lemma {:induction false} EscapedOneMore(s: string, c: char)
    ensures Escaped(s + [c]) == Escaped(s) + Escape(c)
  {
    if s == "" {
      assert Escaped("") == "" && [c][1..] == "";
      assert Escape(c) + "" == Escape(c) == "" + Escape(c);
    } else {
      EscapedOneMore(s[1..], c);
      assert (s + [c])[1..] == s[1..] + [c];
      Regrouped(Escape(s[0]), Escaped(s[1..]), Escape(c));
    }
  }

  /** Builds the quoted form with the source's loop over the doubled text. */
  method ExecQuote(path: string) returns (quoted: string)
    ensures quoted == Quoted(path)
  {
    var safe := DoublePercents(path);
    if !AnyReserved(path) {
      return safe;
    }
    var body := "";
    for i := 0 to |safe|
      invariant body == Escaped(safe[..i])
    {
      var c := safe[i];
      EscapedOneMore(safe[..i], c);
      assert safe[..i + 1] == safe[..i] + [c];
      if c == '"' || c == '`' || c == '$' {
        body := body + ("\\\\" + [c]);
      } else if c == '\\' {
        body := body + "\\\\\\\\";
      } else {
        body := body + [c];
      }
    }
    assert safe[..|safe|] == safe;
    return "\"" + body + "\"";
  }

  /** What one turn of the unquoting loop reads off the front, and how long that is. */
  function Front(s: string): (string, nat)
    requires s != ""
  {
    if s[0] != '\\' then ([s[0]], 1)
    else
      var run := BackslashRun(s, 4);
      if run == 4 then ("\\", 4) else if run < |s| then ([s[run]], run + 1) else ("", run)
  }

  lemma FrontPlain(s: string)
    requires s != "" && s[0] != '\\'
    ensures Unescaped(s) == [s[0]] + Unescaped(s[1..])
  {
  }

  lemma FrontRun(s: string, run: nat)
    requires s != "" && s[0] == '\\' && run == BackslashRun(s, 4)
    ensures 0 < run
    ensures Unescaped(s) == if run == 4 then "\\" + Unescaped(s[4..])
                            else if run < |s| then [s[run]] + Unescaped(s[run + 1..]) else ""
  {
  }

  lemma FrontFirst(s: string)
    requires s != ""
    ensures 0 < Front(s).1 <= |s| && Unescaped(s) == Front(s).0 + Unescaped(s[Front(s).1..])
  {
    if s[0] != '\\' {
      FrontPlain(s);
    } else {
      FrontRun(s, BackslashRun(s, 4));
    }
  }

  lemma Reassociates(a: string, b: string, c: string)
    ensures a + (b + c) == a + b + c
  {
  }

  lemma DropsOn(s: string, at: nat, length: nat)
    requires at + length <= |s|
    ensures s[at..][length..] == s[at + length..]
  {
  }

  /** One turn of the unquoting loop. */
  lemma TurnKeeps(inner: string, out: string, at: nat)
    requires at < |inner| && Unescaped(inner) == out + Unescaped(inner[at..])
    ensures var (taken, length) := Front(inner[at..]);
            0 < length <= |inner| - at && Unescaped(inner) == out + taken + Unescaped(inner[at + length..])
  {
    FrontFirst(inner[at..]);
    var (taken, length) := Front(inner[at..]);
    DropsOn(inner, at, length);
    Reassociates(out, taken, Unescaped(inner[at + length..]));
  }

  /** Counts the backslashes from `start` on, up to four. */
  method CountRun(inner: string, start: nat) returns (run: nat)
    requires start < |inner| && inner[start] == '\\'
    ensures run == BackslashRun(inner[start..], 4)
  {
    run := 1;
    while start + run < |inner| && inner[start + run] == '\\' && run < 4
      invariant 1 <= run <= 4 && start + run <= |inner|
      invariant BackslashRun(inner[start..], 4) == run + BackslashRun(inner[start + run..], 4 - run)
    {
      run := run + 1;
    }
  }

  /** Reads one character of the path off `inner`, escaped or not. Answers where the next one starts. */
  method TakeOne(inner: string, start: nat) returns (taken: string, next: nat)
    requires start < |inner|
    ensures (taken, next) == (Front(inner[start..]).0, start + Front(inner[start..]).1)
  {
    if inner[start] == '\\' {
      var run := CountRun(inner, start);
      if run == 4 {
        return "\\", start + 4;
      } else if start + run < |inner| {
        return [inner[start + run]], start + run + 1;
      }
      return "", start + run;
    }
    return [inner[start]], start + 1;
  }

  /** Reverses `ExecQuote`. */
  method ExecUnquote(field: string) returns (path: string)
    ensures path == Unquoted(field)
  {
    if !(|field| >= 2 && field[0] == '"' && field[|field| - 1] == '"') {
      return HalvePercents(field);
    }
    var inner := field[1..|field| - 1];
    var out := "";
    var at := 0;
    while at < |inner|
      invariant 0 <= at <= |inner|
      invariant Unescaped(inner) == out + Unescaped(inner[at..])
    {
      TurnKeeps(inner, out, at);
      var taken, next := TakeOne(inner, at);
      out := out + taken;
      at := next;
    }
    assert inner[at..] == "" && out + "" == out;
    return HalvePercents(out);
  }

  // ------------------------------------------------------------------ the round trip

  lemma {:induction false} PercentsRoundTrip(s: string)
    ensures HalvePercents(DoublePercents(s)) == s
  {
    if s != "" {
      PercentsRoundTrip(s[1..]);
      var rest := DoublePercents(s[1..]);
      if s[0] == '%' {
        assert DoublePercents(s)[2..] == rest;
      } else {
        assert DoublePercents(s)[1..] == rest;
      }
    }
  }

  lemma UnescapesOne(c: char, rest: string)
    ensures Unescaped(Escape(c) + rest) == [c] + Unescaped(rest)
  {
    var s := Escape(c) + rest;
    if c == '\\' {
      assert s[1..][0] == '\\' && s[1..][1..][0] == '\\' && s[1..][1..][1..][0] == '\\';
      assert BackslashRun(s[1..][1..][1..], 1) == 1;
      assert BackslashRun(s[1..][1..], 2) == 2;
      assert BackslashRun(s, 4) == 4;
      assert s[4..] == rest;
    } else if c == '"' || c == '`' || c == '$' {
      assert s[1..][0] == '\\' && s[1..][1..][0] == c;
      assert BackslashRun(s[1..][1..], 2) == 0;
      assert BackslashRun(s, 4) == 2;
      assert s[3..] == rest && s[2] == c;
    } else {
      assert s[1..] == rest;
    }
  }

  lemma {:induction false} EscapesRoundTrip(s: string)
    ensures Unescaped(Escaped(s)) == s
  {
    if s != "" {
      UnescapesOne(s[0], Escaped(s[1..]));
      EscapesRoundTrip(s[1..]);
    }
  }

  lemma {:induction false} DoublingAddsOnlyPercents(s: string, c: char)
    requires c != '%' && c !in s
    ensures c !in DoublePercents(s)
  {
    if s != "" {
      assert c != s[0] && c !in s[1..];
      DoublingAddsOnlyPercents(s[1..], c);
    }
  }

  lemma {:induction false} NothingReserved(s: string, c: char)
    requires !AnyReserved(s) && Reserved(c)
    ensures c !in s
  {
    if s != "" {
      NothingReserved(s[1..], c);
      assert s == [s[0]] + s[1..];
    }
  }

  /** Every path comes back, whatever backslashes, quotes, dollars, backticks and percents it mixes. */
  lemma QuotingRoundTrip(path: string)
    ensures Unquoted(Quoted(path)) == path
  {
    var safe := DoublePercents(path);
    PercentsRoundTrip(path);
    if AnyReserved(path) {
      var quoted := Quoted(path);
      assert quoted[1..|quoted| - 1] == Escaped(safe);
      EscapesRoundTrip(safe);
    } else {
      NothingReserved(path, '"');
      DoublingAddsOnlyPercents(path, '"');
    }
  }

  // ------------------------------------------------------------------ the desktop entry

  const EXEC: string := "Exec="
  const TRAY: string := " tray"

  predicate StartsWith(s: string, prefix: string) {
    |prefix| <= |s| && s[..|prefix|] == prefix
  }

  /** A line without the carriage return before its end. */
  function Chomped(line: string): string {
    if line != "" && line[|line| - 1] == '\r' then line[..|line| - 1] else line
  }

  function LineEnd(text: string): (n: nat)
    ensures n <= |text| && (n < |text| ==> text[n] == '\n')
    ensures forall i | 0 <= i < n :: text[i] != '\n'
  {
    if text == "" || text[0] == '\n' then 0 else 1 + LineEnd(text[1..])
  }

  /** What follows `Exec=` on the first line that starts with it. */
  function FirstExec(text: string): Option<string>
    decreases |text|
  {
    if text == "" then None
    else
      var n := LineEnd(text);
      var line := if n < |text| then Chomped(text[..n]) else text;
      if StartsWith(line, EXEC) then Some(line[|EXEC|..])
      else if n < |text| then FirstExec(text[n + 1..])
      else None
  }

  function WithoutTray(exec: string): string {
    if |exec| >= |TRAY| && exec[|exec| - |TRAY|..] == TRAY then exec[..|exec| - |TRAY|] else exec
  }

  /** The program an entry starts. */
  function TargetIn(text: string): Option<string> {
    match FirstExec(text)
    case None => None
    case Some(exec) => Some(Unquoted(WithoutTray(exec)))
  }

  function DoubleBackslashes(s: string): string {
    if s == "" then "" else (if s[0] == '\\' then "\\\\" else [s[0]]) + DoubleBackslashes(s[1..])
  }

  function StringValue(path: string): string {
    var escaped := DoubleBackslashes(path);
    if escaped != "" && escaped[0] == ' ' then "\\s" + escaped[1..] else escaped
  }

  const COMMENT: string := "Comment=" + ("Encrypted clipboard " + "sync across your own machines")
  const ENTRY_HEAD: seq<string> := ["[Desktop Entry]", "Type=Application", "Name=Asli", COMMENT]
  const ENTRY_TAIL: string :=
    "Icon=asli\nTerminal=false\nCategories=Utility;\nX-GNOME-Autostart-enabled=true\n"

  function Lines(lines: seq<string>, rest: string): string {
    if lines == [] then rest else lines[0] + ("\n" + Lines(lines[1..], rest))
  }

  function Contents(exe: string): string {
    Lines(ENTRY_HEAD + ["TryExec=" + StringValue(exe), EXEC + Quoted(exe) + TRAY], ENTRY_TAIL)
  }

  lemma {:induction false} LineEndAt(line: string, rest: string)
    requires '\n' !in line
    ensures LineEnd(line + ("\n" + rest)) == |line|
  {
    var text := line + ("\n" + rest);
    if line != "" {
      assert line[0] in line;
      assert text[1..] == line[1..] + ("\n" + rest);
      LineEndAt(line[1..], rest);
    }
  }

  lemma OtherLine(line: string, rest: string)
    requires '\n' !in line && !StartsWith(line, EXEC)
    ensures FirstExec(line + ("\n" + rest)) == FirstExec(rest)
  {
    var text := line + ("\n" + rest);
    LineEndAt(line, rest);
    assert text[..|line|] == line;
    assert text[|line| + 1..] == rest;
    ChompedStart(line);
  }

  lemma ChompedStart(line: string)
    ensures StartsWith(Chomped(line), EXEC) ==> StartsWith(line, EXEC)
  {
    if StartsWith(Chomped(line), EXEC) {
      assert line[..|EXEC|] == Chomped(line)[..|EXEC|];
    }
  }

  lemma ExecLine(exec: string, rest: string)
    requires '\n' !in exec && exec != "" && exec[|exec| - 1] != '\r'
    ensures FirstExec(EXEC + exec + ("\n" + rest)) == Some(exec)
  {
    var line := EXEC + exec;
    var text := line + ("\n" + rest);
    assert '\n' !in EXEC;
    LineEndAt(line, rest);
    assert text[..|line|] == line && line[..|EXEC|] == EXEC && line[|EXEC|..] == exec;
  }

  predicate OtherLines(lines: seq<string>) {
    lines != [] ==> '\n' !in lines[0] && !StartsWith(lines[0], EXEC) && OtherLines(lines[1..])
  }

  lemma {:induction false} SkipsLines(lines: seq<string>, rest: string)
    requires OtherLines(lines)
    ensures FirstExec(Lines(lines, rest)) == FirstExec(rest)
  {
    if lines != [] {
      OtherLine(lines[0], Lines(lines[1..], rest));
      SkipsLines(lines[1..], rest);
    }
  }

  // ------------------------------------------------------------------ what a desktop reads

  /** A value's own escapes, as the Desktop Entry Specification reads every string. */
  function ValueRead(s: string): string {
    if s == "" then ""
    else if s[0] == '\\' && |s| >= 2 then
      (match s[1]
       case 's' => " "
       case 'n' => "\n"
       case 't' => "\t"
       case 'r' => "\r"
       case '\\' => "\\"
       case c => ['\\', c]) + ValueRead(s[2..])
    else [s[0]] + ValueRead(s[1..])
  }

  datatype Argument = Argument(text: string, rest: string)

  /** The rest of a quoted argument: up to the closing quote, with the four escapes it may hold. */
  function InsideRead(s: string): Option<Argument> {
    if s == "" then None
    else if s[0] == '"' then Some(Argument("", s[1..]))
    else
      var escape := s[0] == '\\' && |s| >= 2 && (s[1] == '"' || s[1] == '`' || s[1] == '$' || s[1] == '\\');
      var (c, more) := if escape then (s[1], s[2..]) else (s[0], s[1..]);
      match InsideRead(more)
      case None => None
      case Some(a) => Some(Argument([c] + a.text, a.rest))
  }

  function BareRead(s: string): Argument {
    if s == "" || s[0] == ' ' then Argument("", s)
    else
      var a := BareRead(s[1..]);
      Argument([s[0]] + a.text, a.rest)
  }

  /** The first argument of an Exec value. */
  function FirstArgument(exec: string): Option<Argument> {
    if exec != "" && exec[0] == '"' then InsideRead(exec[1..]) else Some(BareRead(exec))
  }

  /** What is left of an escape once the value was read. */
  function Once(c: char): string {
    if c == '"' || c == '`' || c == '$' || c == '\\' then ['\\', c] else [c]
  }

  function OnceAll(s: string): string {
    if s == "" then "" else Once(s[0]) + OnceAll(s[1..])
  }

  lemma ValueReadsEscape(c: char, rest: string)
    ensures ValueRead(Escape(c) + rest) == Once(c) + ValueRead(rest)
  {
    var s := Escape(c) + rest;
    if c == '\\' {
      assert s[2..][2..] == rest && s[2] == s[3] == '\\';
      assert ValueRead(s[2..]) == "\\" + ValueRead(rest);
    } else if c == '"' || c == '`' || c == '$' {
      assert s[2..][1..] == rest && s[2] == c;
      assert ValueRead(s[2..]) == [c] + ValueRead(rest);
    } else {
      assert s[1..] == rest;
    }
  }

  lemma {:induction false} ValueReadsEscaped(s: string, rest: string)
    ensures ValueRead(Escaped(s) + rest) == OnceAll(s) + ValueRead(rest)
  {
    if s == "" {
      assert Escaped(s) + rest == rest;
    } else {
      Regrouped(Escape(s[0]), Escaped(s[1..]), rest);
      ValueReadsEscape(s[0], Escaped(s[1..]) + rest);
      ValueReadsEscaped(s[1..], rest);
    }
  }

  lemma InsideReadsOnce(c: char, rest: string)
    ensures InsideRead(rest).None? ==> InsideRead(Once(c) + rest).None?
    ensures InsideRead(rest).Some? ==>
              InsideRead(Once(c) + rest) == Some(Argument([c] + InsideRead(rest).value.text, InsideRead(rest).value.rest))
  {
    var s := Once(c) + rest;
    if |Once(c)| == 2 {
      assert s[0] == '\\' && s[1] == c && s[2..] == rest;
    } else {
      assert s[0] == c && s[1..] == rest;
    }
  }

  lemma {:induction false} InsideReadsAll(s: string, rest: string)
    ensures InsideRead(OnceAll(s) + ("\"" + rest)) == Some(Argument(s, rest))
  {
    var end := "\"" + rest;
    if s == "" {
      assert OnceAll(s) + end == end && end[1..] == rest;
    } else {
      Regrouped(Once(s[0]), OnceAll(s[1..]), end);
      InsideReadsAll(s[1..], rest);
      InsideReadsOnce(s[0], OnceAll(s[1..]) + end);
      assert [s[0]] + s[1..] == s;
    }
  }

  lemma {:induction false} ValueReadsPlain(s: string, rest: string)
    requires '\\' !in s
    ensures ValueRead(s + rest) == s + ValueRead(rest)
  {
    if s == "" {
      assert s + rest == rest;
    } else {
      assert s[0] in s && (s + rest)[1..] == s[1..] + rest;
      ValueReadsPlain(s[1..], rest);
    }
  }

  lemma {:induction false} BareReadsAll(s: string, rest: string)
    requires ' ' !in s && rest != "" && rest[0] == ' '
    ensures BareRead(s + rest) == Argument(s, rest)
  {
    if s == "" {
      assert s + rest == rest;
    } else {
      assert s[0] in s && (s + rest)[1..] == s[1..] + rest;
      BareReadsAll(s[1..], rest);
    }
  }

  /**
   * Read as the specification reads an Exec line, what was quoted is one argument, in which every
   * percent sign stands twice: the path neither splits nor starts a field code.
   */
  lemma ReadsAsOneArgument(path: string)
    ensures FirstArgument(ValueRead(Quoted(path) + TRAY)) == Some(Argument(DoublePercents(path), TRAY))
  {
    var safe := DoublePercents(path);
    assert TRAY[0] == ' ' && '\\' !in TRAY;
    ValueReadsPlain(TRAY, "");
    assert TRAY + "" == TRAY;
    if AnyReserved(path) {
      QuotedReads(safe);
    } else {
      NothingReserved(path, ' ');
      NothingReserved(path, '"');
      NothingReserved(path, '\\');
      DoublingAddsOnlyPercents(path, ' ');
      DoublingAddsOnlyPercents(path, '"');
      DoublingAddsOnlyPercents(path, '\\');
      ValueReadsPlain(safe, TRAY);
      BareReadsAll(safe, TRAY);
      assert safe != "" ==> safe[0] in safe;
    }
  }

  lemma QuotedReads(safe: string)
    requires ValueRead(TRAY) == TRAY
    ensures FirstArgument(ValueRead("\"" + Escaped(safe) + "\"" + TRAY)) == Some(Argument(safe, TRAY))
  {
    var end := "\"" + TRAY;
    var exec := "\"" + (Escaped(safe) + end);
    assert "\"" + Escaped(safe) + "\"" + TRAY == exec;
    assert exec[1..] == Escaped(safe) + end && end[1..] == TRAY;
    ValueReadsEscaped(safe, end);
    assert ValueRead(end) == end;
    var value := "\"" + (OnceAll(safe) + end);
    assert ValueRead(exec) == value && value[1..] == OnceAll(safe) + end;
    InsideReadsAll(safe, TRAY);
  }

  // ------------------------------------------------------------------ where a character can come from

  lemma {:induction false} HalvingAddsNothing(s: string, c: char)
    requires c !in s
    ensures c !in HalvePercents(s)
  {
    if s != "" {
      if |s| >= 2 && s[0] == '%' && s[1] == '%' {
        assert s[0] in s;
        HalvingAddsNothing(s[2..], c);
      } else {
        HalvingAddsNothing(s[1..], c);
      }
    }
  }

  lemma {:induction false} UnescapingAddsNothing(s: string, c: char)
    requires c !in s
    ensures c !in Unescaped(s)
    decreases |s|
  {
    if s != "" {
      FrontFirst(s);
      UnescapingAddsNothing(s[Front(s).1..], c);
      assert s[0] in s;
    }
  }

  lemma UnquotingAddsNothing(field: string, c: char)
    requires c !in field
    ensures c !in Unquoted(field)
  {
    if InQuotes(field) {
      UnescapingAddsNothing(field[1..|field| - 1], c);
      HalvingAddsNothing(Unescaped(field[1..|field| - 1]), c);
    } else {
      HalvingAddsNothing(field, c);
    }
  }

  lemma {:induction false} EscapingAddsNoNewline(s: string)
    requires '\n' !in s
    ensures '\n' !in Escaped(s)
  {
    if s != "" {
      assert s[0] in s;
      EscapingAddsNoNewline(s[1..]);
    }
  }

  lemma QuotingAddsNoNewline(path: string)
    requires '\n' !in path
    ensures '\n' !in Quoted(path)
  {
    DoublingAddsOnlyPercents(path, '\n');
    EscapingAddsNoNewline(DoublePercents(path));
  }

  lemma {:induction false} BackslashesAddNoNewline(s: string)
    requires '\n' !in s
    ensures '\n' !in DoubleBackslashes(s)
  {
    if s != "" {
      assert s[0] in s;
      BackslashesAddNoNewline(s[1..]);
    }
  }

  lemma {:induction false} FoundOnOneLine(text: string)
    ensures FirstExec(text).Some? ==> '\n' !in FirstExec(text).value
    decreases |text|
  {
    if text != "" {
      var n := LineEnd(text);
      assert '\n' !in text[..n];
      if n < |text| {
        FoundOnOneLine(text[n + 1..]);
      }
    }
  }

  // ------------------------------------------------------------------ what is written is read back

  lemma StartsElsewhere(line: string)
    requires line != "" && line[0] != 'E'
    ensures !StartsWith(line, EXEC)
  {
    if |line| >= |EXEC| {
      assert line[0] == line[..|EXEC|][0];
    }
  }

  lemma HeadIsOther()
    ensures OtherLines(ENTRY_HEAD)
  {
    var a, b, c := "[Desktop Entry]", "Type=Application", "Name=Asli";
    var d := COMMENT;
    assert '\n' !in a && '\n' !in b && '\n' !in c;
    assert '\n' !in "Comment=" && '\n' !in "Encrypted clipboard " && '\n' !in "sync across your own machines";
    assert d[0] == "Comment="[0];
    StartsElsewhere(a);
    StartsElsewhere(b);
    StartsElsewhere(c);
    StartsElsewhere(d);
    AllOther([a, b, c, d]);
  }

  lemma {:induction false} AllOther(lines: seq<string>)
    requires forall i | 0 <= i < |lines| :: '\n' !in lines[i] && !StartsWith(lines[i], EXEC)
    ensures OtherLines(lines)
  {
    if lines != [] {
      AllOther(lines[1..]);
    }
  }

  lemma TryExecIsOther(exe: string)
    requires '\n' !in exe
    ensures '\n' !in "TryExec=" + StringValue(exe) && !StartsWith("TryExec=" + StringValue(exe), EXEC)
  {
    BackslashesAddNoNewline(exe);
    StartsElsewhere("TryExec=" + StringValue(exe));
  }

  lemma TwoLines(first: string, second: string, rest: string)
    ensures Lines([first, second], rest) == first + ("\n" + (second + ("\n" + rest)))
  {
    assert [first, second][1..] == [second] && [second][1..] == [];
    assert Lines([second], rest) == second + ("\n" + rest);
  }

  lemma FindsExec(head: seq<string>, other: string, exec: string, rest: string)
    requires OtherLines(head) && '\n' !in other && !StartsWith(other, EXEC)
    requires '\n' !in exec && exec != "" && exec[|exec| - 1] != '\r'
    ensures FirstExec(Lines(head + [other, EXEC + exec], rest)) == Some(exec)
  {
    var line := EXEC + exec;
    LinesJoin(head, [other, line], rest);
    SkipsLines(head, Lines([other, line], rest));
    TwoLines(other, line, rest);
    OtherLine(other, line + ("\n" + rest));
    ExecLine(exec, rest);
  }

  lemma ExecEnds(exec: string)
    requires '\n' !in exec
    ensures '\n' !in exec + TRAY && (exec + TRAY)[|exec| + 4] != '\r'
  {
    assert '\n' !in TRAY;
  }

  lemma ReadsExec(exe: string)
    requires '\n' !in exe
    ensures FirstExec(Contents(exe)) == Some(Quoted(exe) + TRAY)
  {
    HeadIsOther();
    TryExecIsOther(exe);
    QuotingAddsNoNewline(exe);
    ExecEnds(Quoted(exe));
    Regrouped(EXEC, Quoted(exe), TRAY);
    FindsExec(ENTRY_HEAD, "TryExec=" + StringValue(exe), Quoted(exe) + TRAY, ENTRY_TAIL);
  }

  lemma {:induction false} LinesJoin(a: seq<string>, b: seq<string>, rest: string)
    ensures Lines(a + b, rest) == Lines(a, Lines(b, rest))
  {
    if a == [] {
      assert a + b == b;
    } else {
      assert (a + b)[1..] == a[1..] + b;
      LinesJoin(a[1..], b, rest);
    }
  }

  /** An entry names the program it was written for exactly when its path holds no line break. */
  lemma EntryRoundTripExactlyWhen(exe: string)
    ensures TargetIn(Contents(exe)) == Some(exe) <==> '\n' !in exe
  {
    if '\n' !in exe {
      ReadsExec(exe);
      var exec := Quoted(exe) + TRAY;
      assert exec[|exec| - |TRAY|..] == TRAY && exec[..|exec| - |TRAY|] == Quoted(exe);
      QuotingRoundTrip(exe);
    } else {
      FoundOnOneLine(Contents(exe));
      match FirstExec(Contents(exe))
      case None =>
      case Some(exec) => UnquotingAddsNothing(WithoutTray(exec), '\n');
    }
  }
}
