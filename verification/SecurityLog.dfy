/**
 The security log as uploaded: one tab-separated line per event (src/diagnostics.rs). Free text can
 neither forge a field nor a line.
 */
module SecurityLog {
  import opened Options

  /** Text that Rust's `Debug` of a field-less variant or an RFC 3339 timestamp consists of. */
  type Plain = s: string | '\t' !in s && '\n' !in s witness ""

  /** A character, and whether Rust's `Debug` prints it as it is rather than by its code. */
  datatype Letter = Letter(c: char, printable: bool)

  /** A standardized event, printed by its name, or a vendor's own, printed as `Other("...")`. */
  datatype EventType = Standard(name: Plain) | Other(text: seq<Letter>)

  datatype Entry = Entry(recordedAt: Option<Plain>, eventType: EventType, techInfo: Option<string>)

  function Hex(n: nat): (s: string)
    ensures '\t' !in s && '\n' !in s
  {
    var digit := "0123456789abcdef"[n % 16];
    if n < 16 then [digit] else Hex(n / 16) + [digit]
  }

  /** How Rust's `Debug` writes one character inside a string literal. */
  function Escaped(l: Letter): (s: string)
    ensures '\t' !in s && '\n' !in s
  {
    match l.c
    case '\0' => "\\0"
    case '\t' => "\\t"
    case '\n' => "\\n"
    case '\r' => "\\r"
    case '\\' => "\\\\"
    case '\"' => "\\\""
    case _ => if l.printable then [l.c] else "\\u{" + Hex(l.c as int) + "}"
  }

  function EscapedText(s: seq<Letter>): (r: string)
    ensures '\t' !in r && '\n' !in r
  {
    if s == [] then "" else Escaped(s[0]) + EscapedText(s[1..])
  }

  // --- Reading an escaped text -------------------------------------------------------------------

  /** What a character after a backslash stands for; an unknown one reads as a code. */
  function Unescaped(c: char): Option<char> {
    match c
    case '0' => Some('\0')
    case 't' => Some('\t')
    case 'n' => Some('\n')
    case 'r' => Some('\r')
    case '\\' => Some('\\')
    case '\"' => Some('\"')
    case _ => None
  }

  function HexValue(s: string): int {
    if s == "" then 0
    else
      var c := s[|s| - 1] as int;
      16 * HexValue(s[..|s| - 1]) + (if c < 'a' as int then c - '0' as int else c - 'a' as int + 10)
  }

  lemma HexDigit(n: nat)
    requires n < 16
    ensures var c := "0123456789abcdef"[n] as int;
            n == (if c < 'a' as int then c - '0' as int else c - 'a' as int + 10)
  {
  }

  lemma {:induction false} HexReadsBack(n: nat)
    ensures HexValue(Hex(n)) == n && Hex(n) != "" && (n > 0 ==> Hex(n)[0] != '0')
  {
    HexDigit(n % 16);
    if n < 16 {
      assert Hex(n)[..0] == "";
    } else {
      HexReadsBack(n / 16);
      assert Hex(n)[..|Hex(n)| - 1] == Hex(n / 16);
    }
  }

  /**
   One escaped character read back: itself if it is none of the special ones, else a backslash and either
   its short form or its code in hexadecimal between braces.
   */
  predicate Reads(s: string, c: char) {
    || (s == [c] && c !in {'\0', '\t', '\n', '\r', '\\', '\"'})
    || (|s| == 2 && s[0] == '\\' && Unescaped(s[1]) == Some(c))
    || (4 < |s| && s[..3] == "\\u{" && s[|s| - 1] == '}' && HexValue(s[3..|s| - 1]) == c as int)
  }

  lemma EscapedReads(l: Letter)
    ensures Reads(Escaped(l), l.c)
    ensures |Escaped(l)| <= 2 <==> l.printable || l.c in {'\0', '\t', '\n', '\r', '\\', '\"'}
  {
    HexReadsBack(l.c as int);
    var code := Hex(l.c as int);
    var text := "\\u{" + code + "}";
    assert text[..3] == "\\u{" && text[3..|text| - 1] == code;
  }

  /** The escaped text is one escape per character, in order. */
  lemma {:induction false} EscapedTextReads(s: seq<Letter>) returns (pieces: seq<string>)
    ensures |pieces| == |s| && Concat(pieces) == EscapedText(s)
    ensures forall i :: 0 <= i < |s| ==> Reads(pieces[i], s[i].c)
  {
    pieces := [];
    if s != [] {
      var rest := EscapedTextReads(s[1..]);
      EscapedReads(s[0]);
      pieces := [Escaped(s[0])] + rest;
      assert pieces[1..] == rest;
    }
  }

  function Concat(pieces: seq<string>): string {
    if pieces == [] then "" else pieces[0] + Concat(pieces[1..])
  }

  // --- The fields --------------------------------------------------------------------------------

  function DebugName(t: EventType): (r: string)
    ensures '\t' !in r && '\n' !in r
  {
    match t
    case Standard(name) => name
    case Other(text) => "Other(\"" + EscapedText(text) + "\")"
  }

  function Timestamp(e: Entry): string {
    match e.recordedAt
    case None => "-"
    case Some(at) => at
  }

  /** `str::replace(['\t', '\n', '\r'], " ")`: same length, other characters kept in place. */
  function Sanitized(s: string): (r: string)
    ensures |r| == |s|
    ensures forall i :: 0 <= i < |s| ==> r[i] == if s[i] in {'\t', '\n', '\r'} then ' ' else s[i]
  {
    if s == "" then ""
    else [if s[0] in {'\t', '\n', '\r'} then ' ' else s[0]] + Sanitized(s[1..])
  }

  function TechInfo(e: Entry): string {
    Sanitized(match e.techInfo case None => "" case Some(text) => text)
  }

  function Line(e: Entry): string {
    Timestamp(e) + "\t" + DebugName(e.eventType) + "\t" + TechInfo(e)
  }

  function Render(entries: seq<Entry>): string {
    if entries == [] then "" else Line(entries[0]) + "\n" + Render(entries[1..])
  }

  lemma Regroup(a: string, b: string, c: string, d: string)
    ensures a + b + c + d == a + b + (c + d)
  {
  }

  lemma {:induction false} RenderSnoc(entries: seq<Entry>, last: Entry)
    ensures Render(entries + [last]) == Render(entries) + (Line(last) + "\n")
  {
    if entries == [] {
      assert entries + [last] == [last] && [last][1..] == [];
    } else {
      assert (entries + [last])[1..] == entries[1..] + [last];
      RenderSnoc(entries[1..], last);
      Regroup(Line(entries[0]), "\n", Render(entries[1..]), Line(last) + "\n");
    }
  }

  lemma PrefixSnoc(entries: seq<Entry>, i: nat)
    requires i < |entries|
    ensures entries[..i] + [entries[i]] == entries[..i + 1]
  {
  }

  lemma RenderNext(entries: seq<Entry>, i: nat, line: string)
    requires i < |entries| && line == Line(entries[i]) + "\n"
    ensures Render(entries[..i + 1]) == Render(entries[..i]) + line
  {
    PrefixSnoc(entries, i);
    RenderSnoc(entries[..i], entries[i]);
  }

  /** One line with its line end, as formatted. */
  method RenderLine(entry: Entry) returns (line: string)
    ensures line == Line(entry) + "\n"
  {
    var timestamp := if entry.recordedAt.Some? then entry.recordedAt.value else "-";
    var techInfo := Sanitized(if entry.techInfo.Some? then entry.techInfo.value else "");
    line := timestamp + "\t" + DebugName(entry.eventType) + "\t" + techInfo + "\n";
  }

  method RenderSecurityLog(entries: seq<Entry>) returns (rendered: string)
    ensures rendered == Render(entries)
  {
    rendered := "";
    var i := 0;
    while i < |entries|
      invariant i <= |entries|
      invariant rendered == Render(entries[..i])
    {
      var line := RenderLine(entries[i]);
      RenderNext(entries, i, line);
      rendered := rendered + line;
      i := i + 1;
    }
    assert entries[..i] == entries;
  }

  // --- Reading it back ---------------------------------------------------------------------------

  /** The parts of `s` between occurrences of `separator`. */
  function SplitOn(s: string, separator: char): (parts: seq<string>)
    ensures parts != []
  {
    if s == "" then [""]
    else
      var others := SplitOn(s[1..], separator);
      if s[0] == separator then [""] + others else [[s[0]] + others[0]] + others[1..]
  }

  lemma {:induction false} SplitAtFirst(a: string, separator: char, b: string)
    requires separator !in a
    ensures SplitOn(a + [separator] + b, separator) == [a] + SplitOn(b, separator)
  {
    var s := a + [separator] + b;
    if a == "" {
      assert s[1..] == b;
    } else {
      assert s[1..] == a[1..] + [separator] + b;
      SplitAtFirst(a[1..], separator, b);
      var others := SplitOn(s[1..], separator);
      assert others[0] == a[1..] && others[1..] == SplitOn(b, separator);
      assert [s[0]] + others[0] == a;
    }
  }

  lemma {:induction false} NothingToSplit(a: string, separator: char)
    requires separator !in a
    ensures SplitOn(a, separator) == [a]
  {
    if a != "" {
      NothingToSplit(a[1..], separator);
      assert [a[0]] + a[1..] == a;
    }
  }

  lemma ThreeFields(a: string, b: string, c: string)
    requires '\t' !in a && '\t' !in b && '\t' !in c
    ensures SplitOn(a + "\t" + b + "\t" + c, '\t') == [a, b, c]
  {
    assert a + "\t" + b + "\t" + c == a + ['\t'] + (b + ['\t'] + c);
    SplitAtFirst(a, '\t', b + ['\t'] + c);
    SplitAtFirst(b, '\t', c);
    NothingToSplit(c, '\t');
  }

  lemma LineHasThreeFields(e: Entry)
    ensures SplitOn(Line(e), '\t') == [Timestamp(e), DebugName(e.eventType), TechInfo(e)]
    ensures '\n' !in Line(e)
  {
    ThreeFields(Timestamp(e), DebugName(e.eventType), TechInfo(e));
  }

  /** What a reader finds in the three fields, read against the entry itself. */
  ghost predicate FieldsTell(fields: seq<string>, e: Entry) {
    && |fields| == 3
    && fields[0] == (if e.recordedAt.None? then "-" else e.recordedAt.value)
    && (e.eventType.Standard? ==> fields[1] == e.eventType.name)
    && (e.eventType.Other? ==>
          exists pieces :: && |pieces| == |e.eventType.text|
                           && fields[1] == "Other(\"" + Concat(pieces) + "\")"
                           && forall i :: 0 <= i < |pieces| ==> Reads(pieces[i], e.eventType.text[i].c))
    && (e.techInfo.None? ==> fields[2] == "")
    && (e.techInfo.Some? ==>
          && |fields[2]| == |e.techInfo.value|
          && forall i :: 0 <= i < |fields[2]| ==>
               fields[2][i] == if e.techInfo.value[i] in {'\t', '\n', '\r'} then ' ' else e.techInfo.value[i])
  }

  lemma LineTells(e: Entry)
    ensures FieldsTell([Timestamp(e), DebugName(e.eventType), TechInfo(e)], e)
  {
    if e.eventType.Other? {
      var pieces := EscapedTextReads(e.eventType.text);
    }
  }

  function Lines(entries: seq<Entry>): seq<string> {
    if entries == [] then [] else [Line(entries[0])] + Lines(entries[1..])
  }

  lemma {:induction false} LinesAt(entries: seq<Entry>, i: nat)
    requires i < |entries|
    ensures |Lines(entries)| == |entries| && Lines(entries)[i] == Line(entries[i])
  {
    if |entries| > 1 {
      LinesAt(entries[1..], if i > 0 then i - 1 else 0);
    }
  }

  lemma {:induction false} LogSplits(entries: seq<Entry>)
    ensures SplitOn(Render(entries), '\n') == Lines(entries) + [""]
  {
    if entries != [] {
      LineHasThreeFields(entries[0]);
      SplitAtFirst(Line(entries[0]), '\n', Render(entries[1..]));
      LogSplits(entries[1..]);
      assert [Line(entries[0])] + (Lines(entries[1..]) + [""]) == Lines(entries) + [""];
    }
  }

  lemma LineReadsBack(e: Entry)
    ensures FieldsTell(SplitOn(Line(e), '\t'), e)
  {
    LineHasThreeFields(e);
    LineTells(e);
  }

  lemma {:induction false} AsManyLines(entries: seq<Entry>)
    ensures |Lines(entries)| == |entries|
  {
    if entries != [] {
      AsManyLines(entries[1..]);
    }
  }

  /**
   Splitting the rendered log on newlines gives one line per entry in order and the empty text behind
   the last one, and splitting each line on tabs gives exactly three fields: its time or `-`, its type by
   name or in escaped form, and its free text with separators replaced.
   */
  lemma LogReadsBack(entries: seq<Entry>)
    ensures var lines := SplitOn(Render(entries), '\n');
            && |lines| == |entries| + 1 && lines[|entries|] == ""
            && forall i :: 0 <= i < |entries| ==> FieldsTell(SplitOn(lines[i], '\t'), entries[i])
  {
    LogSplits(entries);
    AsManyLines(entries);
    var lines := SplitOn(Render(entries), '\n');
    forall i | 0 <= i < |entries| ensures FieldsTell(SplitOn(lines[i], '\t'), entries[i]) {
      LinesAt(entries, i);
      LineReadsBack(entries[i]);
    }
  }
}
