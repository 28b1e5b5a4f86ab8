/** What a job script prints is read back as the substeps it ran. */
module MarkerRoundTrip {
  import opened SubstepMarkers
  import opened JobScript
  import Decimal
  import opened Wrappers

  // ---------------------------------------------------------------------------
  // How single lines arrive
  // ---------------------------------------------------------------------------

  /** A start marker is read as that start, however it was carried. */
  lemma StartArrives(raw: string, name: string)
    requires Carries(raw, StartLine(name))
    ensures Classify(raw).line != "" && Classify(raw).control == Started(name)
  {
    StartLineIsSolid(name);
    SolidArrives(raw, StartLine(name));
    StartedIff(TrimCr(raw), name);
  }

  /** A finish marker is read as that finish, however it was carried. */
  lemma FinishArrives(raw: string, name: string, code: int)
    requires Decimal.IsInt32(code) && Carries(raw, FinishLine(name, code))
    ensures Classify(raw).line != "" && Classify(raw).control == Finished(name, code)
  {
    FinishLineIsSolid(name, code);
    SolidArrives(raw, FinishLine(name, code));
    Decimal.PrintBack(code);
    FinishedIff(TrimCr(raw), name, code);
  }

  lemma {:induction false} TrimCrMore(s: string, crs: string)
    requires AllCr(crs)
    ensures TrimCr(s + crs) == TrimCr(s)
    decreases |crs|
  {
    if crs == "" {
      assert s + crs == s;
    } else {
      assert (s + crs)[..|s + crs| - 1] == s + crs[..|crs| - 1];
      TrimCrMore(s, crs[..|crs| - 1]);
    }
  }

  lemma {:induction false} TrimCrKeeps(prefix: string, s: string)
    requires prefix != "" && prefix[|prefix| - 1] != '\r'
    ensures TrimCr(prefix + s) == prefix + TrimCr(s)
  {
    if s == "" {
      assert prefix + s == prefix;
    } else if s[|s| - 1] == '\r' {
      assert (prefix + s)[..|prefix + s| - 1] == prefix + s[..|s| - 1];
      TrimCrKeeps(prefix, s[..|s| - 1]);
    }
  }

  /** A line that is no marker, neither as a whole nor past its first blank. */
  predicate IsPlain(line: string) {
    ParseNormal(TrimCr(line)) == Visible && ParseControl(TrimCr(line)) == Visible
  }

  lemma NormalizePrefixed(prefix: string, line: string)
    requires prefix != "" && IsPrefix(prefix)
    ensures Normalize(prefix + line) == line
  {
    PositionIsFirst(prefix + line, ' ');
    var w := prefix[..|prefix| - 1];
    assert prefix + line == w + [' '] + line;
    PositionAfter(w, ' ', line);
  }

  /** A plain line stays visible, however it was carried. */
  lemma PlainArrives(raw: string, line: string)
    requires IsPlain(line) && Carries(raw, line)
    ensures Classify(raw).control == Visible
  {
    var prefix, crs :| IsPrefix(prefix) && AllCr(crs) && raw == prefix + line + crs;
    TrimCrMore(prefix + line, crs);
    if prefix == "" {
      assert prefix + line == line;
    } else {
      TrimCrKeeps(prefix, line);
      NormalizePrefixed(prefix, TrimCr(line));
    }
  }

  // ---------------------------------------------------------------------------
  // Output without a line end
  // ---------------------------------------------------------------------------

  lemma EncodedNameHasNoUnderscore(name: string)
    ensures forall i :: 0 <= i < |EncodeName(name)| ==> EncodeName(name)[i] != '_'
  {
    EncodedNameChars(name);
    var enc := EncodeName(name);
    forall i | 0 <= i < |enc|
      ensures enc[i] != '_'
    {
      assert enc[i] in enc;
    }
  }

  lemma PayloadHasNoUnderscore(name: string, numeral: string)
    requires Decimal.ParseInt32(numeral).Some?
    ensures forall i :: 0 <= i < |Payload(name, numeral)| ==> Payload(name, numeral)[i] != '_'
  {
    EncodedNameChars(name);
    Decimal.ParsedChars(numeral);
    var enc, payload := EncodeName(name), Payload(name, numeral);
    forall i | 0 <= i < |payload|
      ensures payload[i] != '_'
    {
      assert i < |enc| ==> payload[i] in enc;
      assert i > |enc| ==> payload[i] in numeral;
    }
  }

  lemma PrefixBar()
    ensures |FINISH_PREFIX| == 24 && FINISH_PREFIX[0] == '_' && FINISH_PREFIX[23] == '|'
    ensures forall i :: 0 <= i < 23 ==> FINISH_PREFIX[i] != '|'
  {
  }

  /** Text that ends in a finish marker is itself one only if nothing stands before. */
  lemma NothingBefore(v: string, rest: string, name: string, numeral: string)
    requires v + (FINISH_PREFIX + rest) == FINISH_PREFIX + Payload(name, numeral)
    requires Decimal.ParseInt32(numeral).Some?
    ensures v == ""
  {
    PrefixBar();
    PayloadHasNoUnderscore(name, numeral);
    var whole := v + (FINISH_PREFIX + rest);
    assert whole[|v|] == '_' && whole[23] == '|';
    assert |v| <= 23 ==> whole[23] == FINISH_PREFIX[23 - |v|];
  }

  lemma NormalizeGlued(u: string, line: string)
    requires ' ' !in line
    ensures exists v :: Normalize(u + line) == v + line && (v == "" <==> IsPrefix(u))
  {
    PositionIsFirst(u, ' ');
    PositionIsFirst(u + line, ' ');
    var i := Position(u, ' ');
    if i == |u| {
      assert Normalize(u + line) == u + line;
    } else {
      var w, v := u[..i], u[i + 1..];
      assert u + line == w + [' '] + (v + line);
      PositionAfter(w, ' ', v + line);
      assert Normalize(u + line) == v + line;
      if IsPrefix(u) {
        assert u[i] !in u[..|u| - 1] || i == |u| - 1;
      }
    }
  }

  /** Text that ends in a finish marker is never a start marker. */
  lemma NoStartBefore(v: string, rest: string, name: string)
    requires v + (FINISH_PREFIX + rest) == START_PREFIX + EncodeName(name)
    ensures v == ""
  {
    EncodedNameHasNoUnderscore(name);
    var whole := v + (FINISH_PREFIX + rest);
    assert |START_PREFIX| == 23 && FINISH_PREFIX[22] == '_';
    assert whole[|v| + 22] == '_';
  }

  /** What becomes of a line that is `v` and a finish marker, past its first blank. */
  lemma GluedControl(x: string, v: string, name: string, code: int)
    requires Decimal.IsInt32(code) && Normalize(x) == v + FinishLine(name, code)
    ensures ParseControl(x) == if v == "" then Finished(name, code) else Visible
  {
    var rest := Payload(name, Decimal.Print(code));
    if v == "" {
      Decimal.PrintBack(code);
      assert v + FinishLine(name, code) == FINISH_PREFIX + rest;
      FinishedIff(x, name, code);
    } else if ParseControl(x).Started? {
      StartedIff(x, ParseControl(x).name);
      NoStartBefore(v, rest, ParseControl(x).name);
    } else if ParseControl(x).Finished? {
      var n, c := ParseControl(x).name, ParseControl(x).code;
      FinishedIff(x, n, c);
      var t :| Decimal.ParseInt32(t) == Some(c) && Normalize(x) == FINISH_PREFIX + Payload(n, t);
      NothingBefore(v, rest, n, t);
    }
  }

  /**
   When a substep's output does not end with a line end, its finish marker is glued to the
   unfinished line `tail`. Behind a timestamp it is recognised exactly when nothing was
   unfinished; bare, also when `tail` is one word and a blank. Otherwise it is shown as a line
   of output.
   */
  lemma GluedFinishIff(prefix: string, tail: string, crs: string, name: string, code: int)
    requires IsPrefix(prefix) && AllCr(crs) && Decimal.IsInt32(code)
    ensures var raw := prefix + (tail + FinishLine(name, code)) + crs;
            var found := if prefix == "" then IsPrefix(tail) else tail == "";
            && Classify(raw).line != ""
            && Classify(raw).control == if found then Finished(name, code) else Visible
  {
    var line := FinishLine(name, code);
    var x := prefix + (tail + line);
    FinishLineIsSolid(name, code);
    assert x[|x| - 1] == line[|line| - 1];
    TrimCrOff(x, crs);
    if prefix == "" {
      assert x == tail + line;
      NormalizeGlued(tail, line);
      var v :| Normalize(tail + line) == v + line && (v == "" <==> IsPrefix(tail));
      GluedControl(x, v, name, code);
    } else {
      NormalizePrefixed(prefix, tail + line);
      GluedControl(x, tail, name, code);
    }
  }

  /** One word and a blank without a line end: the finish is read bare, and lost behind a timestamp. */
  lemma FinishLost(stamp: string, word: string, name: string, code: int)
    requires stamp != "" && IsPrefix(stamp) && ' ' !in word && Decimal.IsInt32(code)
    ensures var glued := word + " " + FinishLine(name, code);
            && Classify(glued).control == Finished(name, code)
            && Classify(stamp + glued).control == Visible
  {
    var tail := word + " ";
    var glued := tail + FinishLine(name, code);
    assert tail[..|word|] == word;
    GluedFinishIff("", tail, "", name, code);
    GluedFinishIff(stamp, tail, "", name, code);
    assert "" + glued + "" == glued;
    assert stamp + glued + "" == stamp + glued;
  }

  /** A finish marker behind a timestamp and an unfinished line is a line of output. */
  lemma GluedArrives(raw: string, tail: string, name: string, code: int)
    requires Decimal.IsInt32(code) && tail != "" && Stamped(raw, tail + FinishLine(name, code))
    ensures Classify(raw).line != "" && Classify(raw).control == Visible
  {
    var prefix, crs :| prefix != "" && IsPrefix(prefix) && AllCr(crs) && raw == prefix + (tail + FinishLine(name, code)) + crs;
    GluedFinishIff(prefix, tail, crs, name, code);
  }

  // ---------------------------------------------------------------------------
  // Sections
  // ---------------------------------------------------------------------------

  /** How lines reach the parser: as printed, behind a timestamp, or now so and now so. */
  datatype Carriage = Bare | Behind | Either

  /** The exit code of a section whose finish marker is recognised. */
  function Seen(sec: Section, how: Carriage): Option<int> {
    if sec.tail == "" || (how.Bare? && IsPrefix(sec.tail)) then Some(sec.code) else None
  }

  /** The items are a start of this substep, whatever it prints, and its finish or a visible line. */
  predicate Framed(items: seq<Item>, name: string, seen: Option<int>) {
    var n := |items|;
    && n >= 2
    && items[0].line != "" && items[0].control == Started(name)
    && items[n - 1].line != "" && items[n - 1].control == (if seen.Some? then Finished(name, seen.value) else Visible)
  }

  /** As `Framed`, and nothing in between passes for a marker. */
  predicate Reads(items: seq<Item>, name: string, seen: Option<int>) {
    && Framed(items, name, seen)
    && (forall i :: 0 < i < |items| - 1 ==> items[i].control == Visible)
  }

  /** The log lines of a substep's own output: empty lines are dropped, the rest numbered from `k`. */
  function OwnLines(stream: Stream, items: seq<Item>, name: string, k: nat): seq<LogLine> {
    if items == [] then []
    else if items[0].line == "" then OwnLines(stream, items[1..], name, k)
    else [LogLine(k, stream, items[0].line, Some(name), Line, None)] + OwnLines(stream, items[1..], name, k + 1)
  }

  /** A started event, the substep's own lines and, if seen, a finished event; consecutively numbered. */
  function SectionEvents(stream: Stream, items: seq<Item>, name: string, seen: Option<int>, k: nat): seq<LogLine>
    requires |items| >= 2
  {
    var own := OwnLines(stream, if seen.Some? then items[1..|items| - 1] else items[1..], name, k + 1);
    [LogLine(k, stream, "", Some(name), SubstepStarted, None)] + own +
    if seen.Some? then [LogLine(k + 1 + |own|, stream, "", Some(name), SubstepFinished, seen)] else []
  }

  lemma {:induction false} BodyParses(stream: Stream, items: seq<Item>, name: string, k: nat)
    requires forall i :: 0 <= i < |items| ==> items[i].control == Visible
    ensures EmitAll(stream, items, State(Some(name), k)) == OwnLines(stream, items, name, k)
    ensures NextAll(items, State(Some(name), k)) == State(Some(name), k + |OwnLines(stream, items, name, k)|)
  {
    if items != [] {
      BodyParses(stream, items[1..], name, if items[0].line == "" then k else k + 1);
    }
  }

  lemma StartAndBodyParse(stream: Stream, first: Item, body: seq<Item>, name: string, st: State)
    requires first.line != "" && first.control == Started(name)
    requires forall i :: 0 <= i < |body| ==> body[i].control == Visible
    ensures var k := st.sequence;
            var own := OwnLines(stream, body, name, k + 1);
            && NextAll([first] + body, st) == State(Some(name), k + 1 + |own|)
            && EmitAll(stream, [first] + body, st) == [LogLine(k, stream, "", Some(name), SubstepStarted, None)] + own
  {
    EmitAppend(stream, [first], body, st);
    EmitOne(stream, first, st);
    BodyParses(stream, body, name, st.sequence + 1);
  }

  /** The substep that is current after a section. */
  function Left(name: string, seen: Option<int>): Option<string> {
    if seen.Some? then None else Some(name)
  }

  lemma FinishedParses(stream: Stream, items: seq<Item>, name: string, code: int, st: State)
    requires Reads(items, name, Some(code))
    ensures EmitAll(stream, items, st) == SectionEvents(stream, items, name, Some(code), st.sequence)
    ensures NextAll(items, st) ==
            State(None, st.sequence + |SectionEvents(stream, items, name, Some(code), st.sequence)|)
  {
    var first, body, last := items[0], items[1..|items| - 1], items[|items| - 1];
    assert items == [first] + body + [last];
    StartAndBodyParse(stream, first, body, name, st);
    EmitAppend(stream, [first] + body, [last], st);
    EmitOne(stream, last, NextAll([first] + body, st));
  }

  lemma UnfinishedParses(stream: Stream, items: seq<Item>, name: string, st: State)
    requires Reads(items, name, None)
    ensures EmitAll(stream, items, st) == SectionEvents(stream, items, name, None, st.sequence)
    ensures NextAll(items, st) ==
            State(Some(name), st.sequence + |SectionEvents(stream, items, name, None, st.sequence)|)
  {
    assert items == [items[0]] + items[1..];
    StartAndBodyParse(stream, items[0], items[1..], name, st);
  }

  lemma SectionParses(stream: Stream, items: seq<Item>, name: string, seen: Option<int>, st: State)
    requires Reads(items, name, seen)
    ensures EmitAll(stream, items, st) == SectionEvents(stream, items, name, seen, st.sequence)
    ensures NextAll(items, st) ==
            State(Left(name, seen), st.sequence + |SectionEvents(stream, items, name, seen, st.sequence)|)
  {
    match seen
    case Some(code) => FinishedParses(stream, items, name, code, st);
    case None => UnfinishedParses(stream, items, name, st);
  }

  /** The number of a section's lines, its markers included. */
  function Size(sec: Section): nat { |sec.body| + 2 }

  /** The items are the sections, one after the other. */
  predicate ReadsAll(items: seq<Item>, secs: seq<Section>, how: Carriage) {
    if secs == [] then items == []
    else
      var n := Size(secs[0]);
      n <= |items| && Reads(items[..n], secs[0].name, Seen(secs[0], how)) && ReadsAll(items[n..], secs[1..], how)
  }

  /** The log lines of the sections, numbered from `k`. */
  function AllEvents(stream: Stream, items: seq<Item>, secs: seq<Section>, how: Carriage, k: nat): seq<LogLine>
    decreases |secs|, 0
  {
    if secs == [] || |items| < Size(secs[0]) then []
    else
      EventsBehind(stream, SectionEvents(stream, items[..Size(secs[0])], secs[0].name, Seen(secs[0], how), k),
                   items[Size(secs[0])..], secs[1..], how, k)
  }

  function EventsBehind(stream: Stream, here: seq<LogLine>, items: seq<Item>, secs: seq<Section>, how: Carriage, k: nat): seq<LogLine>
    decreases |secs|, 1
  {
    here + AllEvents(stream, items, secs, how, k + |here|)
  }

  lemma EventsUnfold(stream: Stream, items: seq<Item>, secs: seq<Section>, how: Carriage, k: nat, n: nat, here: seq<LogLine>)
    requires ReadsAll(items, secs, how) && secs != [] && n == Size(secs[0])
    requires here == SectionEvents(stream, items[..n], secs[0].name, Seen(secs[0], how), k)
    ensures AllEvents(stream, items, secs, how, k) == here + AllEvents(stream, items[n..], secs[1..], how, k + |here|)
  {
    assert AllEvents(stream, items, secs, how, k) == EventsBehind(stream, here, items[n..], secs[1..], how, k);
  }

  lemma ReadsUnfold(items: seq<Item>, secs: seq<Section>, how: Carriage, n: nat)
    requires ReadsAll(items, secs, how) && secs != [] && n == Size(secs[0])
    ensures n <= |items| && items == items[..n] + items[n..]
    ensures Reads(items[..n], secs[0].name, Seen(secs[0], how)) && ReadsAll(items[n..], secs[1..], how)
  {
  }

  /** The substep that is current after the sections. */
  function LeftAfter(current: Option<string>, secs: seq<Section>, how: Carriage): Option<string>
    decreases |secs|
  {
    if secs == [] then current else LeftAfter(Left(secs[0].name, Seen(secs[0], how)), secs[1..], how)
  }

  /** The items give these log lines and leave this substep current. */
  ghost predicate Gives(stream: Stream, items: seq<Item>, st: State, lines: seq<LogLine>, left: Option<string>) {
    EmitAll(stream, items, st) == lines && NextAll(items, st) == State(left, st.sequence + |lines|)
  }

  lemma Compose(stream: Stream, front: seq<Item>, back: seq<Item>, st: State,
                here: seq<LogLine>, between: Option<string>, there: seq<LogLine>, left: Option<string>)
    requires Gives(stream, front, st, here, between)
    requires Gives(stream, back, State(between, st.sequence + |here|), there, left)
    ensures Gives(stream, front + back, st, here + there, left)
  {
    EmitAppend(stream, front, back, st);
  }

  lemma FrontGives(stream: Stream, items: seq<Item>, sec: Section, how: Carriage, st: State)
    requires Reads(items, sec.name, Seen(sec, how))
    ensures Gives(stream, items, st, SectionEvents(stream, items, sec.name, Seen(sec, how), st.sequence),
                  Left(sec.name, Seen(sec, how)))
  {
    SectionParses(stream, items, sec.name, Seen(sec, how), st);
  }

  lemma {:induction false} SectionsGive(stream: Stream, items: seq<Item>, secs: seq<Section>, how: Carriage, st: State)
    requires ReadsAll(items, secs, how)
    ensures Gives(stream, items, st, AllEvents(stream, items, secs, how, st.sequence), LeftAfter(st.current, secs, how))
    decreases |secs|
  {
    if secs != [] {
      var n, k := Size(secs[0]), st.sequence;
      var here := SectionEvents(stream, items[..n], secs[0].name, Seen(secs[0], how), k);
      var between := Left(secs[0].name, Seen(secs[0], how));
      ReadsUnfold(items, secs, how, n);
      FrontGives(stream, items[..n], secs[0], how, st);
      SectionsGive(stream, items[n..], secs[1..], how, State(between, k + |here|));
      EventsUnfold(stream, items, secs, how, k, n, here);
      Compose(stream, items[..n], items[n..], st, here, between,
              AllEvents(stream, items[n..], secs[1..], how, k + |here|), LeftAfter(between, secs[1..], how));
    }
  }

  /** The sections give exactly their log lines, numbered on, wherever the parser stood. */
  lemma SectionsParse(stream: Stream, items: seq<Item>, secs: seq<Section>, how: Carriage, st: State)
    requires ReadsAll(items, secs, how)
    ensures EmitAll(stream, items, st) == AllEvents(stream, items, secs, how, st.sequence)
    ensures NextAll(items, st) ==
            State(LeftAfter(st.current, secs, how), st.sequence + |AllEvents(stream, items, secs, how, st.sequence)|)
  {
    SectionsGive(stream, items, secs, how, st);
  }

  // ---------------------------------------------------------------------------
  // Output of any kind
  // ---------------------------------------------------------------------------

  /** A start marker makes the parser forget what was current. */
  lemma StartForgets(stream: Stream, items: seq<Item>, st: State)
    requires items != [] && items[0].line != "" && items[0].control.Started?
    ensures EmitAll(stream, items, st) == EmitAll(stream, items, State(None, st.sequence))
    ensures NextAll(items, st) == NextAll(items, State(None, st.sequence))
  {
    assert Next(items[0], st) == Next(items[0], State(None, st.sequence));
  }

  lemma {:induction false} NumbersGoOn(stream: Stream, items: seq<Item>, st: State)
    ensures NextAll(items, st).sequence == st.sequence + |EmitAll(stream, items, st)|
  {
    if items != [] {
      NumbersGoOn(stream, items[1..], Next(items[0], st));
    }
  }

  /**
   What a section yields whose lines may pass for markers: its started event, its lines as they
   are read from within the substep, and its finished event if the finish is recognised. After
   that no substep is current, whatever the lines were.
   */
  lemma FramedParses(stream: Stream, items: seq<Item>, name: string, seen: Option<int>, st: State)
    requires Framed(items, name, seen)
    ensures var k, body, last := st.sequence, items[1..|items| - 1], items[|items| - 1];
            var inside := State(Some(name), k + 1);
            && EmitAll(stream, items, st) ==
               [LogLine(k, stream, "", Some(name), SubstepStarted, None)] + EmitAll(stream, body, inside)
               + Emit(stream, last, NextAll(body, inside))
            && NextAll(items, st).current == if seen.Some? then None else NextAll(body, inside).current
  {
    var first, body, last := items[0], items[1..|items| - 1], items[|items| - 1];
    assert items == [first] + body + [last];
    EmitAppend(stream, [first] + body, [last], st);
    EmitAppend(stream, [first], body, st);
    EmitOne(stream, first, st);
    EmitOne(stream, last, NextAll([first] + body, st));
  }

  /** The items are sections with whatever their substeps print. */
  predicate FramedAll(items: seq<Item>, secs: seq<Section>, how: Carriage) {
    if secs == [] then items == []
    else
      var n := Size(secs[0]);
      n <= |items| && Framed(items[..n], secs[0].name, Seen(secs[0], how)) && FramedAll(items[n..], secs[1..], how)
  }

  /** The log lines of each section parsed by itself, numbered on. */
  function ApartEvents(stream: Stream, items: seq<Item>, secs: seq<Section>, k: nat): seq<LogLine>
    decreases |secs|
  {
    if secs == [] || |items| < Size(secs[0]) then []
    else
      var here := EmitAll(stream, items[..Size(secs[0])], State(None, k));
      here + ApartEvents(stream, items[Size(secs[0])..], secs[1..], k + |here|)
  }

  lemma FrontApart(stream: Stream, front: seq<Item>, back: seq<Item>, st: State)
    requires front != [] && front[0].line != "" && front[0].control.Started?
    ensures var here := EmitAll(stream, front, State(None, st.sequence));
            && EmitAll(stream, front + back, st) == here + EmitAll(stream, back, NextAll(front, st))
            && NextAll(front, st).sequence == st.sequence + |here|
  {
    EmitAppend(stream, front, back, st);
    StartForgets(stream, front, st);
    NumbersGoOn(stream, front, st);
  }

  lemma FramedUnfold(items: seq<Item>, secs: seq<Section>, how: Carriage, n: nat)
    requires FramedAll(items, secs, how) && secs != [] && n == Size(secs[0])
    ensures n <= |items| && items == items[..n] + items[n..] && FramedAll(items[n..], secs[1..], how)
    ensures items[..n] != [] && items[..n][0].line != "" && items[..n][0].control.Started?
  {
  }

  /**
   No substep's output changes what the parser makes of another's: the log lines are those of
   each section parsed by itself.
   */
  lemma {:induction false} SectionsApart(stream: Stream, items: seq<Item>, secs: seq<Section>, how: Carriage, st: State)
    requires FramedAll(items, secs, how)
    ensures EmitAll(stream, items, st) == ApartEvents(stream, items, secs, st.sequence)
    decreases |secs|
  {
    if secs != [] {
      var n := Size(secs[0]);
      FramedUnfold(items, secs, how, n);
      FrontApart(stream, items[..n], items[n..], st);
      SectionsApart(stream, items[n..], secs[1..], how, NextAll(items[..n], st));
    }
  }

  // ---------------------------------------------------------------------------
  // From the script to the log
  // ---------------------------------------------------------------------------

  /** The raw lines are these lines, each carried in this way. */
  ghost predicate CarriesAll(raws: seq<string>, lines: seq<string>, how: Carriage) {
    && |raws| == |lines|
    && forall i :: 0 <= i < |raws| ==> Arrives(raws[i], lines[i], how)
  }

  ghost predicate Arrives(raw: string, line: string, how: Carriage) {
    match how
    case Bare => exists crs :: AllCr(crs) && raw == line + crs
    case Behind => Stamped(raw, line)
    case Either => Carries(raw, line)
  }

  lemma ArrivesCarried(raw: string, line: string, how: Carriage)
    requires Arrives(raw, line, how)
    ensures Carries(raw, line)
  {
    if how.Bare? {
      var crs :| AllCr(crs) && raw == line + crs;
      assert IsPrefix("") && raw == "" + line + crs;
    }
  }

  /** The exit code is one; if it is open how lines arrive, the last line is ended. */
  predicate IsSound(sec: Section, how: Carriage) {
    Decimal.IsInt32(sec.code) && (how.Either? ==> sec.tail == "")
  }

  /** No line of the substep's output passes for a marker. */
  predicate IsOrderly(sec: Section) {
    forall i :: 0 <= i < |sec.body| ==> IsPlain(sec.body[i])
  }

  lemma BodyLine(sec: Section, i: nat)
    requires 0 < i <= |sec.body|
    ensures SectionLines(sec)[i] == sec.body[i - 1]
  {
  }

  lemma ItemAt(raws: seq<string>, i: nat)
    requires i < |raws|
    ensures Items(raws)[i] == Classify(raws[i])
  {
  }

  lemma BodyArrives(raws: seq<string>, sec: Section, how: Carriage, i: nat)
    requires IsOrderly(sec) && CarriesAll(raws, SectionLines(sec), how) && 0 < i < |raws| - 1
    ensures Classify(raws[i]).control == Visible
  {
    BodyLine(sec, i);
    ArrivesCarried(raws[i], sec.body[i - 1], how);
    PlainArrives(raws[i], sec.body[i - 1]);
  }

  lemma BareArrives(raw: string, tail: string, name: string, code: int)
    requires Decimal.IsInt32(code) && Arrives(raw, tail + FinishLine(name, code), Bare)
    ensures Classify(raw).line != ""
    ensures Classify(raw).control == if IsPrefix(tail) then Finished(name, code) else Visible
  {
    var crs :| AllCr(crs) && raw == tail + FinishLine(name, code) + crs;
    assert "" + (tail + FinishLine(name, code)) + crs == raw;
    GluedFinishIff("", tail, crs, name, code);
  }

  lemma LastArrives(raw: string, sec: Section, how: Carriage)
    requires IsSound(sec, how) && Arrives(raw, sec.tail + FinishLine(sec.name, sec.code), how)
    ensures Classify(raw).line != ""
    ensures Classify(raw).control == if Seen(sec, how).Some? then Finished(sec.name, sec.code) else Visible
  {
    var finish := FinishLine(sec.name, sec.code);
    if how.Bare? {
      BareArrives(raw, sec.tail, sec.name, sec.code);
    } else if sec.tail == "" {
      assert sec.tail + finish == finish;
      ArrivesCarried(raw, finish, how);
      FinishArrives(raw, sec.name, sec.code);
    } else {
      GluedArrives(raw, sec.tail, sec.name, sec.code);
    }
  }

  lemma EndsArrive(raws: seq<string>, sec: Section, how: Carriage)
    requires IsSound(sec, how) && CarriesAll(raws, SectionLines(sec), how)
    ensures Framed(Items(raws), sec.name, Seen(sec, how))
  {
    assert SectionLines(sec)[0] == StartLine(sec.name);
    assert SectionLines(sec)[|raws| - 1] == sec.tail + FinishLine(sec.name, sec.code);
    ArrivesCarried(raws[0], StartLine(sec.name), how);
    StartArrives(raws[0], sec.name);
    LastArrives(raws[|raws| - 1], sec, how);
  }

  lemma SectionArrives(raws: seq<string>, sec: Section, how: Carriage)
    requires IsOrderly(sec) && CarriesAll(raws, SectionLines(sec), how)
    requires Framed(Items(raws), sec.name, Seen(sec, how))
    ensures Reads(Items(raws), sec.name, Seen(sec, how))
  {
    forall i | 0 < i < |raws| - 1
      ensures Items(raws)[i].control == Visible
    {
      BodyArrives(raws, sec, how, i);
      ItemAt(raws, i);
    }
  }

  lemma SplitCarries(raws: seq<string>, a: seq<string>, b: seq<string>, how: Carriage)
    requires CarriesAll(raws, a + b, how)
    ensures CarriesAll(raws[..|a|], a, how) && CarriesAll(raws[|a|..], b, how)
  {
    forall i | 0 <= i < |b|
      ensures Arrives(raws[|a|..][i], b[i], how)
    {
      assert Arrives(raws[|a| + i], (a + b)[|a| + i], how);
    }
    forall i | 0 <= i < |a|
      ensures Arrives(raws[..|a|][i], a[i], how)
    {
      assert Arrives(raws[i], (a + b)[i], how);
    }
  }

  lemma {:induction false} SectionsArrive(raws: seq<string>, secs: seq<Section>, how: Carriage)
    requires forall i :: 0 <= i < |secs| ==> IsSound(secs[i], how)
    requires CarriesAll(raws, AllLines(secs), how)
    ensures FramedAll(Items(raws), secs, how)
    decreases |secs|
  {
    if secs != [] {
      var n := Size(secs[0]);
      SplitCarries(raws, SectionLines(secs[0]), AllLines(secs[1..]), how);
      EndsArrive(raws[..n], secs[0], how);
      SectionsArrive(raws[n..], secs[1..], how);
      ItemsSplit(raws, n);
    }
  }

  lemma {:induction false} SectionsRead(raws: seq<string>, secs: seq<Section>, how: Carriage)
    requires FramedAll(Items(raws), secs, how) && CarriesAll(raws, AllLines(secs), how)
    requires forall i :: 0 <= i < |secs| ==> IsOrderly(secs[i])
    ensures ReadsAll(Items(raws), secs, how)
    decreases |secs|
  {
    if secs != [] {
      var n := Size(secs[0]);
      SplitCarries(raws, SectionLines(secs[0]), AllLines(secs[1..]), how);
      ItemsSplit(raws, n);
      SectionArrives(raws[..n], secs[0], how);
      SectionsRead(raws[n..], secs[1..], how);
    }
  }

  lemma ItemsSplit(raws: seq<string>, n: nat)
    requires n <= |raws|
    ensures Items(raws)[..n] == Items(raws[..n]) && Items(raws)[n..] == Items(raws[n..])
  {
  }

  /** The job's script, run with these outcomes, as its lines reach the parser. */
  ghost predicate Delivered(substeps: seq<Substep>, outcomes: seq<Outcome>, last: int, saved: int,
                            raws: seq<string>, how: Carriage)
  {
    && |substeps| <= |outcomes| && AllOneLine(raws)
    && (forall i :: 0 <= i < |Sections(substeps, outcomes)| ==>
                      IsSound(Sections(substeps, outcomes)[i], how) && IsLines(Sections(substeps, outcomes)[i]))
    && CarriesAll(raws, Lines(Output(Program(substeps), outcomes, last, saved)), how)
  }

  /**
   For every list of substeps and outcomes, whatever the substeps print: the output of the job's
   script is parsed section by section, each from its start marker and by itself, and each ends
   with its finish if that is recognised.
   */
  lemma ScriptParses(substeps: seq<Substep>, outcomes: seq<Outcome>, last: int, saved: int,
                     raws: seq<string>, how: Carriage, stream: Stream, st: State)
    requires Delivered(substeps, outcomes, last, saved, raws, how)
    ensures var items, secs := Items(Lines(JoinLines(raws))), Sections(substeps, outcomes);
            && items == Items(raws)
            && FramedAll(items, secs, how)
            && CarriesAll(raws, AllLines(secs), how)
            && EmitAll(stream, items, st) == ApartEvents(stream, items, secs, st.sequence)
  {
    var secs := Sections(substeps, outcomes);
    ProgramOutput(substeps, outcomes, last, saved);
    AllOneLineOf(secs, how);
    LinesOfChunks(AllLines(secs), "");
    LinesOfChunks(raws, "");
    SectionsArrive(raws, secs, how);
    SectionsApart(stream, Items(raws), secs, how, st);
  }

  /**
   If none of their lines passes for a marker, that is: the started events of the substeps that
   were run, their lines under the enclosing name, and the finished events of those whose finish
   is recognised. Where it is not, the finish marker is a line of that substep.
   */
  lemma ScriptRoundTrip(substeps: seq<Substep>, outcomes: seq<Outcome>, last: int, saved: int,
                        raws: seq<string>, how: Carriage, stream: Stream, st: State)
    requires Delivered(substeps, outcomes, last, saved, raws, how)
    requires forall i :: 0 <= i < |Sections(substeps, outcomes)| ==> IsOrderly(Sections(substeps, outcomes)[i])
    ensures var items, secs := Items(Lines(JoinLines(raws))), Sections(substeps, outcomes);
            && ReadsAll(items, secs, how)
            && EmitAll(stream, items, st) == AllEvents(stream, items, secs, how, st.sequence)
            && NextAll(items, st).current == LeftAfter(st.current, secs, how)
  {
    ScriptParses(substeps, outcomes, last, saved, raws, how, stream, st);
    SectionsRead(raws, Sections(substeps, outcomes), how);
    SectionsParse(stream, Items(raws), Sections(substeps, outcomes), how, st);
  }

  /** The body and the tail of a section hold no line ends. */
  predicate IsLines(sec: Section) {
    AllOneLine(sec.body) && OneLine(sec.tail)
  }

  lemma {:induction false} AllOneLineOf(secs: seq<Section>, how: Carriage)
    requires forall i :: 0 <= i < |secs| ==> IsSound(secs[i], how) && IsLines(secs[i])
    ensures AllOneLine(AllLines(secs))
  {
    if secs != [] {
      AllOneLineOf(secs[1..], how);
      SectionOneLine(secs[0], how);
    }
  }

  lemma SectionOneLine(sec: Section, how: Carriage)
    requires IsSound(sec, how) && IsLines(sec)
    ensures AllOneLine(SectionLines(sec))
  {
    StartLineIsSolid(sec.name);
    FinishLineIsSolid(sec.name, sec.code);
  }
}
