/**
 The marker lines a job script prints around each substep, and the parser that finds them
 again in the container's output.

 The output may come bare, or with a timestamp and one blank before every line, and a
 terminal puts carriage returns before line ends. Time stamps of the parsed lines and the
 wrap-around of the 64-bit line counter are not modelled.
 */
module SubstepMarkers {
  import LogCollector
  import Utf8
  import Base64
  import Decimal
  import opened Wrappers

  // ---------------------------------------------------------------------------
  // Text
  // ---------------------------------------------------------------------------

  /** The first place of `c`, or the length of the text. */
  function Position(s: string, c: char): nat {
    if s == "" || s[0] == c then 0 else 1 + Position(s[1..], c)
  }

  lemma {:induction false} PositionIsFirst(s: string, c: char)
    ensures Position(s, c) <= |s| && c !in s[..Position(s, c)]
    ensures Position(s, c) < |s| ==> s[Position(s, c)] == c
    ensures Position(s, c) < |s| <==> c in s
  {
    if s != "" && s[0] != c {
      PositionIsFirst(s[1..], c);
      var i := Position(s[1..], c);
      assert s == [s[0]] + s[1..];
      assert s[..i + 1] == [s[0]] + s[1..][..i];
    }
  }

  lemma {:induction false} PositionAfter(a: string, c: char, b: string)
    requires c !in a
    ensures Position(a + [c] + b, c) == |a|
  {
    if a != "" {
      assert (a + [c] + b)[1..] == a[1..] + [c] + b;
      PositionAfter(a[1..], c, b);
    }
  }

  /** `lines`, with carriage returns still in place */
  function Lines(text: string): (ls: seq<string>)
    ensures text != "" ==> ls != []
  {
    if text == "" then []
    else if text[0] == '\n' then [""] + Lines(text[1..])
    else if |text| == 1 then [text]
    else var rest := Lines(text[1..]); [[text[0]] + rest[0]] + rest[1..]
  }

  /** Some lines, each with its line end, before more text. */
  function Before(ls: seq<string>, text: string): string {
    if ls == [] then text else ls[0] + "\n" + Before(ls[1..], text)
  }

  function JoinLines(ls: seq<string>): string {
    Before(ls, "")
  }

  predicate OneLine(s: string) { '\n' !in s }

  lemma {:induction false} NextLine(l: string, text: string)
    requires OneLine(l)
    ensures Lines(l + "\n" + text) == [l] + Lines(text)
  {
    var whole := l + "\n" + text;
    if l == "" {
      assert whole[1..] == text;
    } else {
      assert whole[1..] == l[1..] + "\n" + text;
      NextLine(l[1..], text);
      assert [l[0]] + l[1..] == l;
    }
  }

  predicate AllOneLine(ls: seq<string>) {
    forall i :: 0 <= i < |ls| ==> OneLine(ls[i])
  }

  lemma LinesStep(ls: seq<string>, rest: string, more: seq<string>)
    requires ls != [] && OneLine(ls[0]) && Lines(rest) == ls[1..] + more
    ensures Lines(ls[0] + "\n" + rest) == ls + more
  {
    NextLine(ls[0], rest);
    assert [ls[0]] + (ls[1..] + more) == ls + more;
  }

  lemma {:induction false} LinesBefore(ls: seq<string>, text: string, more: seq<string>)
    requires AllOneLine(ls) && more == Lines(text)
    ensures Lines(Before(ls, text)) == ls + more
  {
    if ls != [] {
      LinesBefore(ls[1..], text, more);
      LinesStep(ls, Before(ls[1..], text), more);
    }
  }

  lemma {:induction false} BeforeAppends(ls: seq<string>, text: string)
    ensures Before(ls, text) == JoinLines(ls) + text
  {
    if ls != [] {
      BeforeAppends(ls[1..], text);
    }
  }

  lemma {:induction false} BeforeBefore(a: seq<string>, b: seq<string>, text: string)
    ensures Before(a + b, text) == Before(a, Before(b, text))
  {
    if a == [] {
      assert a + b == b;
    } else {
      assert (a + b)[1..] == a[1..] + b;
      BeforeBefore(a[1..], b, text);
    }
  }

  /** A chunk that ends with a line end can be split off without changing the lines. */
  lemma LinesOfChunks(ls: seq<string>, text: string)
    requires AllOneLine(ls)
    ensures Lines(JoinLines(ls) + text) == Lines(JoinLines(ls)) + Lines(text)
    ensures Lines(JoinLines(ls)) == ls
  {
    BeforeAppends(ls, text);
    LinesBefore(ls, text, Lines(text));
    LinesBefore(ls, "", []);
  }

  function TrimCr(s: string): string {
    if s != "" && s[|s| - 1] == '\r' then TrimCr(s[..|s| - 1]) else s
  }

  predicate AllCr(s: string) {
    forall i :: 0 <= i < |s| ==> s[i] == '\r'
  }

  lemma {:induction false} TrimCrOff(s: string, crs: string)
    requires AllCr(crs)
    requires s != "" ==> s[|s| - 1] != '\r'
    ensures TrimCr(s + crs) == s
    decreases |crs|
  {
    if crs == "" {
      assert s + crs == s;
    } else {
      assert (s + crs)[..|s + crs| - 1] == s + crs[..|crs| - 1];
      TrimCrOff(s, crs[..|crs| - 1]);
    }
  }

  // ---------------------------------------------------------------------------
  // Marker lines
  // ---------------------------------------------------------------------------

  const START_PREFIX := "__MULI_SUBSTEP_START__|"
  const FINISH_PREFIX := "__MULI_SUBSTEP_FINISH__|"

  function EncodeName(name: string): string {
    Base64.Encode(Base64.STANDARD, Utf8.Encode(name))
  }

  /** `decode_substep_name` */
  function DecodeName(s: string): Option<string> {
    var b := Base64.Decode(Base64.STANDARD, s);
    if b.None? then None else Utf8.Decode(b.value)
  }

  /** A text decodes to a name exactly when it is that name's encoding. */
  lemma DecodeNameIff(s: string, name: string)
    ensures DecodeName(s) == Some(name) <==> s == EncodeName(name)
  {
    Utf8.DecodeEncode(name);
    Base64.StandardIsProper();
    Base64.DecodeEncode(Base64.STANDARD, Utf8.Encode(name));
    if DecodeName(s) == Some(name) {
      Base64.EncodeDecode(Base64.STANDARD, s);
      Utf8.EncodeDecode(Base64.Decode(Base64.STANDARD, s).value);
    }
  }

  /** A character that may stand in an encoded name. */
  predicate IsNameChar(c: char) {
    Base64.StandardValue(c).Some? || c == '='
  }

  lemma EncodedNameChars(name: string)
    ensures forall c :: c in EncodeName(name) ==> IsNameChar(c)
  {
    Base64.StandardIsProper();
    Base64.EncodedChars(Base64.STANDARD, Utf8.Encode(name));
  }

  function StartLine(name: string): string {
    START_PREFIX + EncodeName(name)
  }

  function FinishLine(name: string, code: int): string {
    FINISH_PREFIX + Payload(name, Decimal.Print(code))
  }

  datatype Control = Visible | Started(name: string) | Finished(name: string, code: int)

  /** The line without the timestamp, or whatever stands before the first blank. */
  function Normalize(line: string): string {
    PositionIsFirst(line, ' ');
    var i := Position(line, ' ');
    if i < |line| then line[i + 1..] else line
  }

  function ParseFinish(payload: string): Control {
    PositionIsFirst(payload, '|');
    var i := Position(payload, '|');
    if i == |payload| then Visible
    else
      var name, code := DecodeName(payload[..i]), Decimal.ParseInt32(payload[i + 1..]);
      if name.Some? && code.Some? then Finished(name.value, code.value) else Visible
  }

  function ParseNormal(t: string): Control {
    if START_PREFIX <= t then
      var name := DecodeName(t[|START_PREFIX|..]);
      if name.Some? then Started(name.value) else Visible
    else if FINISH_PREFIX <= t then ParseFinish(t[|FINISH_PREFIX|..])
    else Visible
  }

  /** `parse_control_marker` */
  function ParseControl(line: string): Control {
    ParseNormal(Normalize(line))
  }

  lemma PrefixesDiffer(t: string)
    requires FINISH_PREFIX <= t
    ensures !(START_PREFIX <= t)
  {
    assert t[15] == 'F';
    assert START_PREFIX[15] == 'S';
  }

  /** The payload of a finish marker: the encoded name, a bar, and a numeral. */
  function Payload(name: string, numeral: string): string {
    EncodeName(name) + ['|'] + numeral
  }

  lemma ParsePayload(name: string, numeral: string)
    ensures ParseFinish(Payload(name, numeral)) ==
            var code := Decimal.ParseInt32(numeral);
            if code.Some? then Finished(name, code.value) else Visible
  {
    var enc, payload := EncodeName(name), Payload(name, numeral);
    EncodedNameChars(name);
    PositionAfter(enc, '|', numeral);
    assert payload[..|enc|] == enc && payload[|enc| + 1..] == numeral;
    DecodeNameIff(enc, name);
  }

  lemma PayloadParsed(payload: string, name: string, i: nat)
    requires i < |payload| && payload[i] == '|' && DecodeName(payload[..i]) == Some(name)
    ensures payload == Payload(name, payload[i + 1..])
  {
    DecodeNameIff(payload[..i], name);
  }

  /** A line is read as a start exactly when, past its first blank, it is that substep's start marker. */
  lemma StartedIff(line: string, name: string)
    ensures ParseControl(line) == Started(name) <==> Normalize(line) == StartLine(name)
  {
    var t := Normalize(line);
    if START_PREFIX <= t {
      DecodeNameIff(t[|START_PREFIX|..], name);
      assert t == START_PREFIX + t[|START_PREFIX|..];
    }
  }

  /** A line is read as a finish exactly when it is the finish marker with some numeral of the code. */
  lemma FinishedIff(line: string, name: string, code: int)
    ensures ParseControl(line) == Finished(name, code) <==>
            exists t :: Decimal.ParseInt32(t) == Some(code) && Normalize(line) == FINISH_PREFIX + Payload(name, t)
  {
    var n := Normalize(line);
    if ParseControl(line) == Finished(name, code) {
      var payload := n[|FINISH_PREFIX|..];
      assert n == FINISH_PREFIX + payload;
      PositionIsFirst(payload, '|');
      PayloadParsed(payload, name, Position(payload, '|'));
    }
    if t :| Decimal.ParseInt32(t) == Some(code) && n == FINISH_PREFIX + Payload(name, t) {
      PrefixesDiffer(n);
      ParsePayload(name, t);
      assert n[|FINISH_PREFIX|..] == Payload(name, t);
    }
  }

  // ---------------------------------------------------------------------------
  // The parser
  // ---------------------------------------------------------------------------

  type Stream = LogCollector.Stream

  datatype Kind = SubstepStarted | Line | SubstepFinished

  datatype LogLine = LogLine(
    sequence: nat, stream: Stream, message: string, substep: Option<string>, kind: Kind, code: Option<int>)

  /** The substep the next line belongs to, and its number. */
  datatype State = State(current: Option<string>, sequence: nat)

  /** A line without its carriage returns, and what it is read as. */
  datatype Item = Item(line: string, control: Control)

  function Classify(raw: string): Item {
    Item(TrimCr(raw), ParseControl(TrimCr(raw)))
  }

  function Items(raws: seq<string>): seq<Item> {
    seq(|raws|, i requires 0 <= i < |raws| => Classify(raws[i]))
  }

  /** The state after one line; an empty line leaves no trace. */
  function Next(it: Item, st: State): State {
    if it.line == "" then st
    else
      match it.control
      case Started(n) => State(Some(n), st.sequence + 1)
      case Finished(_, _) => State(None, st.sequence + 1)
      case Visible => State(st.current, st.sequence + 1)
  }

  /** The log line made of one line. */
  function Emit(stream: Stream, it: Item, st: State): seq<LogLine> {
    if it.line == "" then []
    else
      match it.control
      case Started(n) => [LogLine(st.sequence, stream, "", Some(n), SubstepStarted, None)]
      case Finished(n, c) => [LogLine(st.sequence, stream, "", Some(n), SubstepFinished, Some(c))]
      case Visible => [LogLine(st.sequence, stream, it.line, st.current, Line, None)]
  }

  function NextAll(items: seq<Item>, st: State): State {
    if items == [] then st else NextAll(items[1..], Next(items[0], st))
  }

  function EmitAll(stream: Stream, items: seq<Item>, st: State): seq<LogLine> {
    if items == [] then [] else Emit(stream, items[0], st) + EmitAll(stream, items[1..], Next(items[0], st))
  }

  lemma {:induction false} EmitAppend(stream: Stream, a: seq<Item>, b: seq<Item>, st: State)
    ensures NextAll(a + b, st) == NextAll(b, NextAll(a, st))
    ensures EmitAll(stream, a + b, st) == EmitAll(stream, a, st) + EmitAll(stream, b, NextAll(a, st))
  {
    if a == [] {
      assert a + b == b;
    } else {
      assert (a + b)[1..] == a[1..] + b;
      EmitAppend(stream, a[1..], b, Next(a[0], st));
    }
  }

  lemma EmitOne(stream: Stream, it: Item, st: State)
    ensures NextAll([it], st) == Next(it, st) && EmitAll(stream, [it], st) == Emit(stream, it, st)
  {
    assert [it][1..] == [];
    assert Emit(stream, it, st) + [] == Emit(stream, it, st);
  }

  class Parser {
    var current: Option<string>
    var sequence: nat

    constructor ()
      ensures View() == State(None, 0)
    {
      current, sequence := None, 0;
    }

    ghost function View(): State
      reads this
    {
      State(current, sequence)
    }

    /** A line that has been read. */
    method Accept(stream: Stream, line: string, control: Control) returns (out: seq<LogLine>)
      requires line != ""
      modifies this
      ensures View() == Next(Item(line, control), old(View()))
      ensures out == Emit(stream, Item(line, control), old(View()))
    {
      match control {
        case Started(name) =>
          current := Some(name);
          out := [LogLine(sequence, stream, "", Some(name), SubstepStarted, None)];
        case Finished(name, code) =>
          current := None;
          out := [LogLine(sequence, stream, "", Some(name), SubstepFinished, Some(code))];
        case Visible =>
          out := [LogLine(sequence, stream, line, current, Line, None)];
      }
      sequence := sequence + 1;
    }

    /** The closure that `parse_output_lines` maps over the lines */
    method ParseLine(stream: Stream, raw: string) returns (out: seq<LogLine>)
      modifies this
      ensures View() == Next(Classify(raw), old(View()))
      ensures out == Emit(stream, Classify(raw), old(View()))
    {
      var line := TrimCr(raw);
      if line == "" {
        return [];
      }
      out := Accept(stream, line, ParseControl(line));
    }

    /** The loop over the lines. */
    method ParseAll(stream: Stream, raws: seq<string>) returns (out: seq<LogLine>)
      modifies this
      ensures View() == NextAll(Items(raws), old(View()))
      ensures out == EmitAll(stream, Items(raws), old(View()))
    {
      out := [];
      ghost var start := View();
      assert Items(raws[..0]) == [];
      for i := 0 to |raws|
        invariant View() == NextAll(Items(raws[..i]), start)
        invariant out == EmitAll(stream, Items(raws[..i]), start)
      {
        ItemsNext(stream, raws, i, start);
        var more := ParseLine(stream, raws[i]);
        out := out + more;
      }
      assert raws[..|raws|] == raws;
    }

    /** `parse_output_lines` */
    method ParseOutputLines(stream: Stream, text: string) returns (out: seq<LogLine>)
      modifies this
      ensures View() == NextAll(Items(Lines(text)), old(View()))
      ensures out == EmitAll(stream, Items(Lines(text)), old(View()))
    {
      out := ParseAll(stream, Lines(text));
    }
  }

  lemma ItemsAppend(a: seq<string>, b: seq<string>)
    ensures Items(a + b) == Items(a) + Items(b)
  {
  }

  lemma ItemsNext(stream: Stream, raws: seq<string>, i: nat, st: State)
    requires i < |raws|
    ensures var items, it := Items(raws[..i]), Classify(raws[i]);
            && NextAll(Items(raws[..i + 1]), st) == Next(it, NextAll(items, st))
            && EmitAll(stream, Items(raws[..i + 1]), st) ==
               EmitAll(stream, items, st) + Emit(stream, it, NextAll(items, st))
  {
    assert raws[..i + 1] == raws[..i] + [raws[i]];
    ItemsAppend(raws[..i], [raws[i]]);
    assert Items([raws[i]]) == [Classify(raws[i])];
    ghost var items, it := Items(raws[..i]), Classify(raws[i]);
    EmitAppend(stream, items, [it], st);
    EmitOne(stream, it, NextAll(items, st));
  }

  /** Parsing output in chunks that end with line ends gives the same lines as parsing it at once. */
  lemma ChunksParseAlike(stream: Stream, ls: seq<string>, text: string, st: State)
    requires AllOneLine(ls)
    ensures var chunk, all := Items(Lines(JoinLines(ls))), Items(Lines(JoinLines(ls) + text));
            && NextAll(all, st) == NextAll(Items(Lines(text)), NextAll(chunk, st))
            && EmitAll(stream, all, st) ==
               EmitAll(stream, chunk, st) + EmitAll(stream, Items(Lines(text)), NextAll(chunk, st))
  {
    LinesOfChunks(ls, text);
    ItemsAppend(ls, Lines(text));
    EmitAppend(stream, Items(ls), Items(Lines(text)), st);
  }

  // ---------------------------------------------------------------------------
  // Markers come back as events
  // ---------------------------------------------------------------------------

  /** `raw` is `line` as it arrives: after a timestamp and a blank or not, before carriage returns. */
  ghost predicate Carries(raw: string, line: string) {
    exists prefix, crs :: IsPrefix(prefix) && AllCr(crs) && raw == prefix + line + crs
  }

  /** As `Carries`, behind a timestamp. */
  ghost predicate Stamped(raw: string, line: string) {
    exists prefix, crs :: prefix != "" && IsPrefix(prefix) && AllCr(crs) && raw == prefix + line + crs
  }

  predicate IsPrefix(prefix: string) {
    prefix == "" || (prefix[|prefix| - 1] == ' ' && ' ' !in prefix[..|prefix| - 1])
  }

  /** No white space and no quote. */
  predicate IsSolid(line: string) {
    forall i :: 0 <= i < |line| ==> line[i] != ' ' && line[i] != '\r' && line[i] != '\n' && line[i] != '\''
  }

  lemma SolidArrives(raw: string, line: string)
    requires line != "" && IsSolid(line) && Carries(raw, line)
    ensures TrimCr(raw) != "" && Normalize(TrimCr(raw)) == line
  {
    var prefix, crs :| IsPrefix(prefix) && AllCr(crs) && raw == prefix + line + crs;
    assert (prefix + line)[|prefix + line| - 1] == line[|line| - 1];
    TrimCrOff(prefix + line, crs);
    NormalizeOff(prefix, line);
  }

  lemma NormalizeOff(prefix: string, line: string)
    requires IsPrefix(prefix) && ' ' !in line
    ensures Normalize(prefix + line) == line
  {
    PositionIsFirst(prefix + line, ' ');
    if prefix == "" {
      assert prefix + line == line;
    } else {
      var w := prefix[..|prefix| - 1];
      assert prefix + line == w + [' '] + line;
      PositionAfter(w, ' ', line);
    }
  }

  lemma PrefixesAreSolid()
    ensures IsSolid(START_PREFIX) && IsSolid(FINISH_PREFIX)
  {
  }

  lemma NameCharIsSolid(c: char)
    requires IsNameChar(c)
    ensures c != ' ' && c != '\r' && c != '\n' && c != '\''
  {
  }

  lemma EncodedNameIsSolid(name: string)
    ensures IsSolid(EncodeName(name))
  {
    EncodedNameChars(name);
    CharsAreSolid(EncodeName(name));
  }

  lemma CharsAreSolid(s: string)
    requires forall c :: c in s ==> IsNameChar(c)
    ensures IsSolid(s)
  {
    forall i | 0 <= i < |s|
      ensures s[i] != ' ' && s[i] != '\r' && s[i] != '\n' && s[i] != '\''
    {
      NameCharIsSolid(s[i]);
    }
  }

  lemma StartLineIsSolid(name: string)
    ensures IsSolid(StartLine(name))
  {
    PrefixesAreSolid();
    EncodedNameIsSolid(name);
  }

  lemma PrintIsSolid(code: int)
    requires Decimal.IsInt32(code)
    ensures IsSolid(Decimal.Print(code))
  {
    var s := Decimal.Print(code);
    Decimal.PrintBack(code);
    Decimal.ParsedChars(s);
    forall i | 0 <= i < |s|
      ensures s[i] != ' ' && s[i] != '\r' && s[i] != '\n' && s[i] != '\''
    {
      assert s[i] in s;
    }
  }

  lemma FinishLineIsSolid(name: string, code: int)
    requires Decimal.IsInt32(code)
    ensures IsSolid(FinishLine(name, code))
  {
    PrefixesAreSolid();
    EncodedNameIsSolid(name);
    PrintIsSolid(code);
  }
}
