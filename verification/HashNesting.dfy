/**
 When the rewriting loop of `HashTemplates` is one pass from left to right.

 The loop replaces every copy of the template it has found first. A copy that lies inside
 another template, at the end of its name, goes too, and takes that template's closing text
 with it: the opener left behind swallows what follows up to the next closing text. So the
 result gets shorter than the pass's, or the loop ends with an error.
 */
module HashNesting {
  import opened HashTemplates
  import opened Wrappers

  /** The closing text without its quote. A name that starts so shares the quote with its opener. */
  const TAIL: string := ") }}"

  predicate IsDigest(h: string) {
    |h| == 64 && forall i :: 0 <= i < 64 ==> IsHex(h[i])
  }

  predicate EndsWith(s: string, w: string) {
    |w| <= |s| && s[|s| - |w|..] == w
  }

  // ---------------------------------------------------------------------------
  // Templates inside templates
  // ---------------------------------------------------------------------------

  lemma OpenChars()
    ensures |OPEN| == 9 && |CLOSE| == 5 && |TAIL| == 4 && CLOSE == "'" + TAIL
    ensures OPEN[0] == '{' && OPEN[1] == '{' && OPEN[8] == '\''
    ensures forall i :: 2 <= i < 9 ==> OPEN[i] != '{'
    ensures forall i :: 0 <= i < 8 ==> OPEN[i] != '\''
    ensures forall i :: 0 <= i < 5 ==> CLOSE[i] != '{' && !IsHex(CLOSE[i])
    ensures forall i :: 0 <= i < 4 ==> TAIL[i] == CLOSE[i + 1] && TAIL[i] != '\'' && !IsHex(TAIL[i])
  {
  }

  /** A name and the closing text behind it start with the tail only if the name does. */
  lemma TailOfName(file: string, rest: string)
    ensures TAIL <= file + CLOSE + rest <==> TAIL <= file
  {
    OpenChars();
    var s := file + CLOSE + rest;
    assert s[|file|] == CLOSE[0] == '\'';
    assert |file| >= 4 ==> s[..4] == file[..4];
  }

  /** An opener inside a template lies behind the template's own opener, in the name. */
  lemma OpenerInside(name: string, rest: string, i: nat)
    requires 0 < i < |Template(name)| && At(Template(name) + rest, OPEN, i)
    ensures 9 <= i < 9 + |name|
  {
    OpenChars();
    var s := Template(name) + rest;
    assert forall k :: 0 <= k < 9 ==> s[k] == OPEN[k];
    assert forall k :: 9 + |name| <= k < 14 + |name| ==> s[k] == CLOSE[k - 9 - |name|];
    AtChar(s, OPEN, i, 0);
    AtChar(s, OPEN, i, 1);
  }

  lemma AtParts(s: string, a: string, b: string, i: nat)
    ensures At(s, a + b, i) <==> At(s, a, i) && At(s, b, i + |a|)
  {
    if i + |a| + |b| <= |s| {
      assert s[i..i + |a + b|] == s[i..i + |a|] + s[i + |a|..i + |a| + |b|];
      if At(s, a + b, i) {
        assert (a + b)[..|a|] == a && (a + b)[|a|..] == b;
      }
    }
  }

  /** The first closing text of a name and its closer. */
  lemma FirstCloser(name: string, rest: string, k: nat)
    requires ReadName(name) && At(name + CLOSE + rest, CLOSE, k)
    ensures |name| <= k
  {
    NameBefore(name, CLOSE, rest);
  }

  /** A template behind an opener, in terms of what follows the opener. */
  lemma TemplateBehind(after: string, file: string, i: nat)
    requires 9 <= i && At(OPEN + after, Template(file), i)
    ensures At(after, OPEN, i - 9) && At(after, file + CLOSE, i)
  {
    var s := OPEN + after;
    assert |OPEN| == 9 && s[9..] == after;
    assert Template(file) == OPEN + (file + CLOSE);
    AtParts(s, OPEN, file + CLOSE, i);
    AtDrop(s, 9, OPEN, i - 9);
    AtDrop(s, 9, file + CLOSE, i);
  }

  lemma TemplateText(name: string, rest: string)
    ensures Template(name) + rest == OPEN + (name + CLOSE + rest)
  {
  }

  /**
   Where the template of a file can occur strictly inside another template: only at its very
   end, unless the file's name starts with the tail of a closing text.
   */
  lemma InsideOnlyAtEnd(name: string, file: string, rest: string, i: nat)
    requires ReadName(name) && ReadName(file) && !(TAIL <= file) && 0 < i < |Template(name)|
    requires At(Template(name) + rest, Template(file), i)
    ensures i + |file| == |name| && EndsWith(name, OPEN + file)
  {
    OpensToo(Template(name) + rest, file, i);
    OpenerInside(name, rest, i);
    TemplateText(name, rest);
    TemplateBehind(name + CLOSE + rest, file, i);
    InsideName(name, file, rest, i - 9);
  }

  lemma OpensToo(s: string, file: string, i: nat)
    requires At(s, Template(file), i)
    ensures At(s, OPEN, i)
  {
    assert Template(file) == OPEN + (file + CLOSE);
    AtParts(s, OPEN, file + CLOSE, i);
  }

  lemma InsideName(name: string, file: string, rest: string, k: nat)
    requires ReadName(name) && ReadName(file) && !(TAIL <= file) && k < |name|
    requires At(name + CLOSE + rest, OPEN, k) && At(name + CLOSE + rest, file + CLOSE, k + 9)
    ensures k + 9 + |file| == |name| && EndsWith(name, OPEN + file)
  {
    var after := name + CLOSE + rest;
    AtParts(after, file, CLOSE, k + 9);
    FirstCloser(name, rest, k + 9 + |file|);
    if |name| < k + 9 {
      AcrossTheQuote(name, file, rest, k);
    } else {
      NotBefore(name, file, rest, k);
      EndOfName(after, name, file, k);
    }
  }

  lemma EndOfName(after: string, name: string, file: string, k: nat)
    requires name <= after && k + 9 + |file| == |name| && At(after, OPEN, k) && At(after, file, k + 9)
    ensures EndsWith(name, OPEN + file)
  {
    assert |OPEN| == 9;
    assert name == after[..|name|];
    assert name[k..] == after[k..k + 9] + after[k + 9..k + 9 + |file|];
  }

  /** An opener that reaches into the closing text shares the quote with it. */
  lemma SharedQuote(name: string, rest: string, k: nat)
    requires k < |name| < k + 9 && At(name + CLOSE + rest, OPEN, k)
    ensures |name| == k + 8 && (name + CLOSE + rest)[k + 9..] == TAIL + rest
  {
    OpenChars();
    var after := name + CLOSE + rest;
    AtChar(after, OPEN, k, |name| - k);
    assert after[|name|] == CLOSE[0];
    assert CLOSE[1..] == TAIL;
  }

  /** Then the file's name starts with the tail. */
  lemma AcrossTheQuote(name: string, file: string, rest: string, k: nat)
    requires k < |name| < k + 9
    requires At(name + CLOSE + rest, OPEN, k) && At(name + CLOSE + rest, file + CLOSE, k + 9)
    ensures TAIL <= file
  {
    SharedQuote(name, rest, k);
    var behind := (name + CLOSE + rest)[k + 9..];
    AtDrop(name + CLOSE + rest, k + 9, file + CLOSE, 0);
    var more := behind[|file + CLOSE|..];
    assert behind == file + CLOSE + more;
    TailOfName(file, more);
  }

  /** The string from `i` on, where `w` occurs. */
  lemma FromThere(s: string, w: string, i: nat)
    requires At(s, w, i)
    ensures s[i..] == w + s[i..][|w|..]
  {
    AtDrop(s, i, w, 0);
  }

  lemma OwnCloser(name: string, rest: string, i: nat)
    requires i <= |name|
    ensures At((name + CLOSE + rest)[i..], CLOSE, |name| - i)
  {
    assert At(name + CLOSE + rest, CLOSE, |name|);
    AtDrop(name + CLOSE + rest, i, CLOSE, |name| - i);
  }

  /** The name's own closing text is not inside the file's name. */
  lemma NotBefore(name: string, file: string, rest: string, k: nat)
    requires ReadName(file) && k + 9 <= |name|
    requires At(name + CLOSE + rest, file + CLOSE, k + 9)
    ensures k + 9 + |file| <= |name|
  {
    var behind := (name + CLOSE + rest)[k + 9..];
    FromThere(name + CLOSE + rest, file + CLOSE, k + 9);
    OwnCloser(name, rest, k + 9);
    FirstCloser(file, behind[|file + CLOSE|..], |name| - k - 9);
  }

  /** A name that ends so does hold the template, at its end. */
  lemma SplitNested(name: string, file: string) returns (a: string)
    requires EndsWith(name, OPEN + file)
    ensures name == a + (OPEN + file) && Template(name) == OPEN + a + Template(file)
  {
    a := name[..|name| - |OPEN + file|];
    assert name == a + (OPEN + file);
  }

  // ---------------------------------------------------------------------------
  // The length of the pass's result
  // ---------------------------------------------------------------------------

  function Plus(n: nat, m: Option<nat>): Option<nat> {
    if m.None? then None else Some(n + m.value)
  }

  /** The length of what the pass makes of the string if all names can be hashed; none if an opener is not closed. */
  function Measure(s: string): Option<nat>
    decreases |s|
  {
    if s == [] then Some(0)
    else if StartsWith(s, OPEN) then
      var after := s[|OPEN|..];
      match Find(after, CLOSE)
      case None => None
      case Some(end) => Plus(64, Measure(after[end + |CLOSE|..]))
    else Plus(1, Measure(s[1..]))
  }

  /** Behind no opener that the pass comes to does the tail of a closing text follow. */
  predicate Proper(s: string)
    decreases |s|
  {
    if s == [] then true
    else if StartsWith(s, OPEN) then
      var after := s[|OPEN|..];
      && !(TAIL <= after)
      && match Find(after, CLOSE)
         case None => true
         case Some(end) => Proper(after[end + |CLOSE|..])
    else Proper(s[1..])
  }

  predicate AtMost(a: Option<nat>, b: Option<nat>) { a.None? || (b.Some? && a.value <= b.value) }

  predicate Less(a: Option<nat>, b: Option<nat>) { a.None? || (b.Some? && a.value < b.value) }

  lemma {:induction false} MeasureText(u: string, rest: string)
    requires '{' !in u
    ensures Measure(u + rest) == Plus(|u|, Measure(rest)) && Proper(u + rest) == Proper(rest)
    ensures Names(u + rest) == Names(rest)
    decreases |u|
  {
    if u == [] {
      assert u + rest == rest;
    } else {
      NotOpen(u + rest);
      assert (u + rest)[1..] == u[1..] + rest;
      MeasureText(u[1..], rest);
    }
  }

  lemma MeasureTemplate(file: string, rest: string)
    requires ReadName(file)
    ensures Measure(Template(file) + rest) == Plus(64, Measure(rest))
    ensures Proper(Template(file) + rest) <==> !(TAIL <= file) && Proper(rest)
    ensures Names(Template(file) + rest) == [file] + Names(rest)
  {
    NameIsFound(file, rest, OPEN, CLOSE);
    Parts(OPEN, file, CLOSE, rest);
    TailOfName(file, rest);
  }

  lemma {:induction false} PassMeasure(s: string, hash: Hasher)
    requires HexDigests(hash) && OnePass(s, hash).Ok?
    ensures Measure(s) == Some(|OnePass(s, hash).value|)
    decreases |s|
  {
    if s == [] {
    } else if StartsWith(s, OPEN) {
      var after := s[|OPEN|..];
      var end := Find(after, CLOSE).value;
      assert hash(after[..end]).Some? && |hash(after[..end]).value| == 64;
      PassMeasure(after[end + |CLOSE|..], hash);
    } else {
      PassMeasure(s[1..], hash);
    }
  }

  /** No name that the pass reads starts with the tail of a closing text. */
  predicate ProperNames(ns: seq<string>) {
    forall n :: n in ns ==> !(TAIL <= n)
  }

  lemma {:induction false} NamesMakeProper(s: string)
    requires Measure(s).Some? && ProperNames(Names(s))
    ensures Proper(s)
    decreases |s|
  {
    if s == [] {
    } else if StartsWith(s, OPEN) {
      var end := Find(s[|OPEN|..], CLOSE).value;
      SplitTemplate(s, end);
      var name, rest := s[|OPEN|..][..end], s[|OPEN|..][end + |CLOSE|..];
      MeasureTemplate(name, rest);
      assert name in Names(s) && forall n :: n in Names(rest) ==> n in Names(s);
      NamesMakeProper(rest);
    } else {
      NamesMakeProper(s[1..]);
    }
  }

  lemma {:induction false} ProperHasNames(s: string)
    requires Proper(s)
    ensures ProperNames(Names(s))
    decreases |s|
  {
    if s == [] {
    } else if StartsWith(s, OPEN) {
      var end := Find(s[|OPEN|..], CLOSE);
      if end.Some? {
        SplitTemplate(s, end.value);
        var name, rest := s[|OPEN|..][..end.value], s[|OPEN|..][end.value + |CLOSE|..];
        MeasureTemplate(name, rest);
        ProperHasNames(rest);
      }
    } else {
      ProperHasNames(s[1..]);
    }
  }

  // ---------------------------------------------------------------------------
  // A round never makes it longer
  // ---------------------------------------------------------------------------

  /** Leaving off everything up to the first closing text makes it shorter. */
  lemma {:induction false} SkipShrinks(s: string, e: nat)
    requires Proper(s) && Find(s, CLOSE) == Some(e)
    ensures Proper(s[e + |CLOSE|..]) && Less(Measure(s[e + |CLOSE|..]), Measure(s))
    decreases |s|
  {
    if StartsWith(s, OPEN) {
      CloserBehindOpener(s, e);
    } else if e == 0 {
      SkipCloser(s);
    } else {
      CloserFurtherOn(s, e);
      SkipShrinks(s[1..], e - 1);
    }
  }

  lemma SkipCloser(s: string)
    requires Proper(s) && CLOSE <= s
    ensures Proper(s[|CLOSE|..]) && Less(Measure(s[|CLOSE|..]), Measure(s))
  {
    OpenChars();
    assert s == CLOSE + s[5..];
    MeasureText(CLOSE, s[5..]);
  }

  lemma CloserFurtherOn(s: string, e: nat)
    requires Find(s, CLOSE) == Some(e) && e > 0
    ensures Find(s[1..], CLOSE) == Some(e - 1)
    ensures s[1..][e - 1 + |CLOSE|..] == s[e + |CLOSE|..]
  {
    AtTail(s, CLOSE);
    FindIsFirst(s, CLOSE, e);
    FindIsFirst(s[1..], CLOSE, e - 1);
  }

  lemma TailBehindQuote(s: string)
    requires At(s, CLOSE, 8)
    ensures TAIL <= s[9..]
  {
    assert s[8..13] == CLOSE;
    assert s[9..][..4] == s[8..13][1..] == TAIL;
  }

  /** The first closing text behind an opener that does not share its quote. */
  lemma CloserBehindOpener(s: string, e: nat)
    requires StartsWith(s, OPEN) && !(TAIL <= s[|OPEN|..]) && Find(s, CLOSE) == Some(e)
    ensures e >= |OPEN| && Find(s[|OPEN|..], CLOSE) == Some(e - |OPEN|)
    ensures s[|OPEN|..][e - |OPEN| + |CLOSE|..] == s[e + |CLOSE|..]
  {
    OpenChars();
    var after := s[9..];
    assert forall i :: 0 <= i < 9 ==> s[i] == OPEN[i];
    AtChar(s, CLOSE, e, 0);
    if e == 8 {
      TailBehindQuote(s);
    }
    forall k | 0 <= k < e - 9
      ensures !At(after, CLOSE, k)
    {
      AtDrop(s, 9, CLOSE, k);
    }
    AtDrop(s, 9, CLOSE, e - 9);
    FindIsFirst(after, CLOSE, e - 9);
  }

  function Shift(n: nat, r: Option<nat>): Option<nat> {
    if r.None? then None else Some(n + r.value)
  }

  /** No `w` starts within `u`. */
  ghost predicate Free(u: string, rest: string, w: string) {
    forall i :: 0 <= i < |u| ==> !At(u + rest, w, i)
  }

  lemma FoundBehind(u: string, rest: string, w: string, k: nat)
    requires Free(u, rest, w) && At(u + rest, w, k)
    ensures k >= |u| && At(rest, w, k - |u|)
  {
    assert (u + rest)[|u|..] == rest;
    AtDrop(u + rest, |u|, w, k - |u|);
  }

  lemma FirstBehind(u: string, rest: string, w: string, e: nat)
    requires Free(u, rest, w) && FirstAt(rest, w, e)
    ensures FirstAt(u + rest, w, |u| + e)
  {
    assert (u + rest)[|u|..] == rest;
    AtDrop(u + rest, |u|, w, e);
    forall i | 0 <= i < |u| + e
      ensures !At(u + rest, w, i)
    {
      if At(u + rest, w, i) {
        FoundBehind(u, rest, w, i);
      }
    }
  }

  lemma SomeBehind(u: string, rest: string, w: string, e: nat)
    requires Free(u, rest, w) && Find(rest, w) == Some(e)
    ensures FirstAt(u + rest, w, |u| + e)
  {
    FindIsFirst(rest, w, e);
    FirstBehind(u, rest, w, e);
  }

  lemma NoneBehind(u: string, rest: string, w: string)
    requires Free(u, rest, w) && Find(u + rest, w).Some?
    ensures exists k: nat :: k <= |rest| && At(rest, w, k)
  {
    FoundBehind(u, rest, w, Find(u + rest, w).value);
  }

  /** Nothing is found in `u`, so the search goes on behind it. */
  lemma FindBehind(u: string, rest: string, w: string)
    requires Free(u, rest, w)
    ensures Find(u + rest, w) == Shift(|u|, Find(rest, w))
  {
    var r := Find(rest, w);
    if r.Some? {
      SomeBehind(u, rest, w, r.value);
      FindIsFirst(u + rest, w, |u| + r.value);
    } else if Find(u + rest, w).Some? {
      NoneBehind(u, rest, w);
    }
  }

  /** A digest holds no closing text, not even together with what stands before or behind it. */
  lemma CloserBehindDigest(a: string, h: string, rest: string, file: string)
    requires IsDigest(h) && ReadName(a + (OPEN + file))
    ensures Find(a + h + rest, CLOSE) == Shift(|a| + 64, Find(rest, CLOSE))
  {
    var u := a + h;
    forall i | 0 <= i < |u|
      ensures !At(u + rest, CLOSE, i)
    {
      NoCloserHere(a, h, rest, file, i);
    }
    FindBehind(u, rest, CLOSE);
  }

  /** A closing text holds no hexadecimal digit. */
  lemma DigestHoldsNoCloser(s: string, n: nat, i: nat)
    requires n + 64 <= |s| && (forall k :: n <= k < n + 64 ==> IsHex(s[k])) && n < i + 5 && i < n + 64
    ensures !At(s, CLOSE, i)
  {
    OpenChars();
    if At(s, CLOSE, i) {
      AtChar(s, CLOSE, i, if i >= n then 0 else n - i);
    }
  }

  lemma NoCloserHere(a: string, h: string, rest: string, file: string, i: nat)
    requires IsDigest(h) && ReadName(a + (OPEN + file)) && i < |a| + 64
    ensures !At(a + h + rest, CLOSE, i)
  {
    var s := a + h + rest;
    if i + 5 <= |a| {
      NameHoldsNoCloser(a, OPEN + file, i);
      CloserInName(a, h + rest, OPEN + file + CLOSE, i);
      assert a + (h + rest) == s;
    } else {
      assert forall k :: |a| <= k < |a| + 64 ==> s[k] == h[k - |a|];
      DigestHoldsNoCloser(s, |a|, i);
    }
  }

  lemma NameHoldsNoCloser(a: string, b: string, i: nat)
    requires ReadName(a + b) && i + 5 <= |a|
    ensures !At(a + (b + CLOSE), CLOSE, i)
  {
    assert a + b + CLOSE == a + (b + CLOSE);
    FindIsFirst(a + b + CLOSE, CLOSE, |a + b|);
  }

  /** A closing text in the front part does not depend on what follows. */
  lemma CloserInName(a: string, b: string, c: string, i: nat)
    requires i + 5 <= |a|
    ensures At(a + b, CLOSE, i) <==> At(a + c, CLOSE, i)
  {
    assert |CLOSE| == 5;
    assert (a + b)[i..i + 5] == a[i..i + 5] == (a + c)[i..i + 5];
  }

  lemma TailBeforeDigest(a: string, h: string, rest: string, file: string)
    requires IsDigest(h) && !(TAIL <= a + (OPEN + file))
    ensures !(TAIL <= a + h + rest)
  {
    OpenChars();
    var s := a + h + rest;
    assert |a| >= 4 ==> s[..4] == a[..4] == (a + (OPEN + file))[..4];
    assert s[|a|] == h[0];
  }

  /** The rest behind the first closing text, if there is one. */
  function Behind(s: string): Option<string> {
    var e := Find(s, CLOSE);
    if e.None? then None else Some(s[e.value + |CLOSE|..])
  }

  lemma OpenedMeasure(after: string)
    requires !(TAIL <= after)
    ensures Measure(OPEN + after) == (if Behind(after).None? then None else Plus(64, Measure(Behind(after).value)))
    ensures Proper(OPEN + after) == (Behind(after).None? || Proper(Behind(after).value))
  {
    var s := OPEN + after;
    assert s[|OPEN|..] == after && StartsWith(s, OPEN);
  }

  /** A template that was hit and what follows it: its closing text is now the next one behind. */
  lemma ClosedLater(a: string, file: string, h: string, rest: string)
    requires IsDigest(h) && ReadName(a + (OPEN + file))
    ensures Behind(a + h + rest) == Behind(rest)
  {
    CloserBehindDigest(a, h, rest, file);
    var e := Find(rest, CLOSE);
    if e.Some? {
      DropBoth(a + h, rest, e.value + |CLOSE|);
    }
  }

  lemma DropBoth(u: string, rest: string, k: nat)
    requires k <= |rest|
    ensures (u + rest)[|u| + k..] == rest[k..]
  {
  }

  /** The hit: the opener left behind swallows everything up to the next closing text. */
  lemma HitShrinks(a: string, file: string, h: string, rest: string, rest': string)
    requires IsDigest(h) && ReadName(a + (OPEN + file)) && !(TAIL <= a + (OPEN + file))
    requires Proper(rest') && AtMost(Measure(rest'), Measure(rest))
    ensures var s := OPEN + (a + h + rest');
            Proper(s) && Less(Measure(s), Plus(64, Measure(rest)))
  {
    TailBeforeDigest(a, h, rest', file);
    OpenedMeasure(a + h + rest');
    ClosedLater(a, file, h, rest');
    var e := Find(rest', CLOSE);
    if e.Some? {
      SkipShrinks(rest', e.value);
    }
  }

  /** Before the end of a name that is hit, the template does not occur. */
  lemma NotBeforeTheEnd(a: string, file: string, rest: string, i: nat)
    requires ReadName(a + (OPEN + file)) && ReadName(file) && !(TAIL <= file) && i < |OPEN + a|
    ensures !At(Template(a + (OPEN + file)) + rest, Template(file), i)
  {
    var name := a + (OPEN + file);
    if At(Template(name) + rest, Template(file), i) {
      if i == 0 {
        TemplatesDiffer(name, file, rest);
      } else {
        InsideOnlyAtEnd(name, file, rest, i);
      }
    }
  }

  lemma NestedText(a: string, file: string, rest: string)
    ensures Template(a + (OPEN + file)) + rest == OPEN + a + (Template(file) + rest)
  {
  }

  lemma FreeBeforeTheEnd(a: string, file: string, rest: string)
    requires ReadName(a + (OPEN + file)) && ReadName(file) && !(TAIL <= file)
    ensures Free(OPEN + a, Template(file) + rest, Template(file))
  {
    NestedText(a, file, rest);
    forall i | 0 <= i < |OPEN + a|
      ensures !At(OPEN + a + (Template(file) + rest), Template(file), i)
    {
      NotBeforeTheEnd(a, file, rest, i);
    }
  }

  /** A round that hits the end of a name. */
  lemma RoundHits(a: string, file: string, h: string, rest: string)
    requires ReadName(a + (OPEN + file)) && ReadName(file) && !(TAIL <= file)
    ensures ReplaceAll(Template(a + (OPEN + file)) + rest, Template(file), h) ==
            OPEN + (a + h + ReplaceAll(rest, Template(file), h))
  {
    NestedText(a, file, rest);
    FreeBeforeTheEnd(a, file, rest);
    ReplaceBehind(OPEN + a, Template(file) + rest, Template(file), h);
    RoundTakes(file, rest, h);
    Regroup(OPEN, a, h, ReplaceAll(rest, Template(file), h));
  }

  lemma Regroup(a: string, b: string, c: string, d: string)
    ensures a + b + (c + d) == a + (b + c + d)
  {
  }

  /** Some name the pass reads ends with a template of `file` without its closing text. */
  ghost predicate HasHit(ns: seq<string>, file: string) {
    exists n :: n in ns && EndsWith(n, OPEN + file)
  }

  lemma NotHitInside(name: string, file: string, rest: string)
    requires ReadName(name) && ReadName(file) && !(TAIL <= file) && !EndsWith(name, OPEN + file)
    ensures NoneInside(name, file, rest)
  {
    forall i | 0 < i < |Template(name)|
      ensures !At(Template(name) + rest, Template(file), i)
    {
      if At(Template(name) + rest, Template(file), i) {
        InsideOnlyAtEnd(name, file, rest, i);
      }
    }
  }

  /** A round never makes the measure larger, and makes it smaller if it hits a name. */
  lemma {:induction false} RoundShrinks(s: string, file: string, h: string)
    requires IsDigest(h) && ReadName(file) && !(TAIL <= file) && Proper(s)
    ensures var s' := ReplaceAll(s, Template(file), h);
            && Proper(s') && AtMost(Measure(s'), Measure(s))
            && (HasHit(Names(s), file) ==> Less(Measure(s'), Measure(s)))
    decreases |s|
  {
    if s == [] {
    } else if !StartsWith(s, OPEN) {
      var r := ReplaceAll(s[1..], Template(file), h);
      RoundShrinks(s[1..], file, h);
      TextStaysText(s, file, h);
      assert ([s[0]] + r)[1..] == r;
    } else {
      var end := Find(s[|OPEN|..], CLOSE);
      if end.None? {
        RoundIsStuck(s, file, h);
      } else {
        SplitTemplate(s, end.value);
        var name, rest := s[|OPEN|..][..end.value], s[|OPEN|..][end.value + |CLOSE|..];
        MeasureTemplate(name, rest);
        RoundShrinks(rest, file, h);
        TemplateShrinks(name, rest, file, h);
      }
    }
  }

  lemma TemplateShrinks(name: string, rest: string, file: string, h: string)
    requires IsDigest(h) && ReadName(name) && ReadName(file) && !(TAIL <= file) && !(TAIL <= name)
    requires var rest' := ReplaceAll(rest, Template(file), h);
             && Proper(rest') && AtMost(Measure(rest'), Measure(rest))
             && (HasHit(Names(rest), file) ==> Less(Measure(rest'), Measure(rest)))
    ensures var s' := ReplaceAll(Template(name) + rest, Template(file), h);
            && Proper(s') && AtMost(Measure(s'), Plus(64, Measure(rest)))
            && (HasHit([name] + Names(rest), file) ==> Less(Measure(s'), Plus(64, Measure(rest))))
  {
    var rest' := ReplaceAll(rest, Template(file), h);
    if name == file {
      RoundTakes(file, rest, h);
      HexIsText(h);
      MeasureText(h, rest');
    } else if EndsWith(name, OPEN + file) {
      var a := SplitNested(name, file);
      RoundHits(a, file, h, rest);
      HitShrinks(a, file, h, rest, rest');
    } else {
      NotHitInside(name, file, rest);
      RoundSkips(name, rest, file, h);
      MeasureTemplate(name, rest');
    }
  }

  lemma HexIsText(h: string)
    requires IsDigest(h)
    ensures '{' !in h
  {
  }

  // ---------------------------------------------------------------------------
  // The loop and the pass
  // ---------------------------------------------------------------------------

  /** `x` is read, and `y` not before it. */
  predicate ReadBefore(ns: seq<string>, x: string, y: string) {
    ns != [] && ns[0] != y && (ns[0] == x || ReadBefore(ns[1..], x, y))
  }

  /** Some name ends with an opener and a name that is read before it. */
  ghost predicate Nested(ns: seq<string>) {
    exists x, y :: NestedAt(ns, x, y)
  }

  predicate NestedAt(ns: seq<string>, x: string, y: string) {
    x in ns && y in ns && ReadBefore(ns, x, y) && EndsWith(y, OPEN + x)
  }

  lemma {:induction false} OrderWithout(ns: seq<string>, z: string, x: string, y: string)
    requires z != x && z != y
    ensures ReadBefore(Without(ns, z), x, y) <==> ReadBefore(ns, x, y)
  {
    if ns != [] {
      OrderWithout(ns[1..], z, x, y);
      var rest := Without(ns[1..], z);
      assert ([ns[0]] + rest)[1..] == rest;
      assert [] + rest == rest;
    }
  }

  /** Forgetting the name that is read first: what is nested stays so, unless the first name is hit. */
  lemma NestedWithout(ns: seq<string>)
    requires ns != [] && !HasHit(ns, ns[0])
    ensures Nested(Without(ns, ns[0])) <==> Nested(ns)
  {
    var z, rest := ns[0], Without(ns, ns[0]);
    WithoutMembers(ns, z);
    if x, y :| NestedAt(rest, x, y) {
      OrderWithout(ns, z, x, y);
      assert NestedAt(ns, x, y);
    }
    if x, y :| NestedAt(ns, x, y) {
      OrderWithout(ns, z, x, y);
      assert NestedAt(rest, x, y);
    }
  }

  lemma HitIsNested(ns: seq<string>)
    requires ns != [] && HasHit(ns, ns[0])
    ensures Nested(ns)
  {
    var y :| y in ns && EndsWith(y, OPEN + ns[0]);
    assert NestedAt(ns, ns[0], y);
  }

  lemma {:induction false} NotHit(s: string, file: string)
    requires ReadName(file) && !(TAIL <= file) && !HasHit(Names(s), file)
    ensures NoHit(s, file)
    decreases |s|
  {
    if s == [] {
    } else if StartsWith(s, OPEN) {
      var end := Find(s[|OPEN|..], CLOSE);
      if end.Some? {
        SplitTemplate(s, end.value);
        var name, rest := s[|OPEN|..][..end.value], s[|OPEN|..][end.value + |CLOSE|..];
        assert name in Names(s) && forall n :: n in Names(rest) ==> n in Names(s);
        if name != file {
          NotHitInside(name, file, rest);
        }
        NotHit(rest, file);
      }
    } else {
      NotHit(s[1..], file);
    }
  }

  /** The first file of a proper string, and its digest. */
  lemma FirstFile(s: string, hash: Hasher)
    requires HexDigests(hash) && ProperNames(Names(s)) && FirstMove(s, hash).Round?
    ensures var m := FirstMove(s, hash);
            && hash(m.file) == Some(m.h) && IsDigest(m.h) && ReadName(m.file) && !(TAIL <= m.file)
            && Names(s) != [] && Names(s)[0] == m.file
  {
    LoopStep(s, hash);
    assert Names(s)[0] in Names(s);
  }

  /** A round without a hit: the pass sees one name less, and the rest is nested as before. */
  lemma CleanRound(s: string, hash: Hasher, file: string, h: string)
    requires HexDigests(hash) && ProperNames(Names(s)) && FirstMove(s, hash) == Round(file, h)
    requires !HasHit(Names(s), file)
    ensures var s' := ReplaceAll(s, Template(file), h);
            && OnePass(s', hash) == OnePass(s, hash)
            && ProperNames(Names(s')) && (Nested(Names(s')) <==> Nested(Names(s)))
  {
    FirstFile(s, hash);
    NotHit(s, file);
    RoundKeepsPass(s, file, h, hash);
    WithoutMembers(Names(s), file);
    NestedWithout(Names(s));
  }

  lemma UnnestedIsNotHit(s: string, hash: Hasher)
    requires HexDigests(hash) && ProperNames(Names(s)) && FirstMove(s, hash).Round?
    ensures HasHit(Names(s), FirstMove(s, hash).file) ==> Nested(Names(s))
  {
    FirstFile(s, hash);
    if HasHit(Names(s), FirstMove(s, hash).file) {
      HitIsNested(Names(s));
    }
  }

  /** If nothing is nested, the loop does what the pass does, errors included. */
  lemma {:induction false} UnnestedIsPass(s: string, hash: Hasher)
    requires HexDigests(hash) && ProperNames(Names(s)) && !Nested(Names(s))
    ensures Loop(s, hash) == OnePass(s, hash)
    decreases Braces(s)
  {
    LoopStep(s, hash);
    var m := FirstMove(s, hash);
    if m.Round? {
      UnnestedIsNotHit(s, hash);
      CleanRound(s, hash, m.file, m.h);
      UnnestedIsPass(ReplaceAll(s, Template(m.file), m.h), hash);
    }
  }

  /** A round on a proper string. */
  lemma ProperRound(s: string, hash: Hasher, file: string, h: string)
    requires HexDigests(hash) && Proper(s) && FirstMove(s, hash) == Round(file, h)
    ensures var s' := ReplaceAll(s, Template(file), h);
            && Proper(s') && AtMost(Measure(s'), Measure(s))
            && (HasHit(Names(s), file) ==> Less(Measure(s'), Measure(s)))
  {
    ProperHasNames(s);
    FirstFile(s, hash);
    RoundShrinks(s, file, h);
  }

  /** The loop's result is never longer than the measure of what it started from. */
  lemma {:induction false} LoopBounded(s: string, hash: Hasher)
    requires HexDigests(hash) && Proper(s) && Loop(s, hash).Ok?
    ensures AtMost(Some(|Loop(s, hash).value|), Measure(s))
    decreases Braces(s)
  {
    LoopStep(s, hash);
    var m := FirstMove(s, hash);
    if m.Stop? {
      PassMeasure(s, hash);
    } else {
      ProperRound(s, hash, m.file, m.h);
      LoopBounded(ReplaceAll(s, Template(m.file), m.h), hash);
    }
  }

  /** After a hit, the loop ends with an error, or with a result that is shorter than the measure. */
  lemma HitIsShorter(s: string, hash: Hasher, file: string, h: string)
    requires HexDigests(hash) && Proper(s) && FirstMove(s, hash) == Round(file, h) && HasHit(Names(s), file)
    ensures Loop(s, hash).Err? || Less(Some(|Loop(s, hash).value|), Measure(s))
  {
    LoopStep(s, hash);
    ProperRound(s, hash, file, h);
    var s' := ReplaceAll(s, Template(file), h);
    if Loop(s', hash).Ok? {
      LoopBounded(s', hash);
    }
  }

  /** If something is nested, the loop ends with an error, or with a result that is shorter. */
  lemma {:induction false} NestedIsShorter(s: string, hash: Hasher)
    requires HexDigests(hash) && Proper(s) && OnePass(s, hash).Ok? && Nested(Names(s))
    ensures Loop(s, hash).Err? || |Loop(s, hash).value| < |OnePass(s, hash).value|
    decreases Braces(s)
  {
    LoopStep(s, hash);
    var m := FirstMove(s, hash);
    if m.Stop? {
      NoNames(s, hash);
    } else if HasHit(Names(s), m.file) {
      HitIsShorter(s, hash, m.file, m.h);
      PassMeasure(s, hash);
    } else {
      ProperHasNames(s);
      ProperRound(s, hash, m.file, m.h);
      CleanRound(s, hash, m.file, m.h);
      NestedIsShorter(ReplaceAll(s, Template(m.file), m.h), hash);
    }
  }

  lemma NoNames(s: string, hash: Hasher)
    requires FirstMove(s, hash).Stop? && OnePass(s, hash).Ok? && HexDigests(hash)
    ensures Names(s) == []
  {
    LoopStep(s, hash);
    PassToOpener(s, |s|, hash);
    assert s[|s|..] == [];
  }

  /**
   For every template that the pass resolves, and whose names do not start with the tail of a
   closing text: the loop does what the pass does if and only if no name ends with an opener
   and a name that is read before it. Otherwise it ends with an error or falls short.
   */
  lemma LoopIsPassIff(s: string, hash: Hasher)
    requires HexDigests(hash) && OnePass(s, hash).Ok? && ProperNames(Names(s))
    ensures Loop(s, hash) == OnePass(s, hash) <==> !Nested(Names(s))
    ensures Nested(Names(s)) ==> Loop(s, hash).Err? || |Loop(s, hash).value| < |OnePass(s, hash).value|
  {
    if Nested(Names(s)) {
      PassMeasure(s, hash);
      NamesMakeProper(s);
      NestedIsShorter(s, hash);
    } else {
      UnnestedIsPass(s, hash);
    }
  }

  // ---------------------------------------------------------------------------
  // Families
  // ---------------------------------------------------------------------------

  /** No closing text starts within a name that has no quote. */
  lemma NoCloserInside(file: string, i: nat)
    requires '\'' !in file && i < |file|
    ensures !At(file + CLOSE, CLOSE, i)
  {
    OpenChars();
    var s := file + CLOSE;
    assert s[i] == file[i];
    if At(s, CLOSE, i) {
      AtChar(s, CLOSE, i, 0);
    }
  }

  lemma QuoteFree(file: string)
    requires '\'' !in file
    ensures ReadName(file)
  {
    assert (file + CLOSE)[|file|..] == CLOSE;
    forall i | 0 <= i < |file|
      ensures !At(file + CLOSE, CLOSE, i)
    {
      NoCloserInside(file, i);
    }
    FindIsFirst(file + CLOSE, CLOSE, |file|);
  }

  /** A closing text that starts at an opener's quote. */
  lemma CloserAtQuote(u: string, rest: string, i: nat)
    requires '\'' !in u && i < |u + OPEN| && At(u + OPEN + rest, CLOSE, i)
    ensures TAIL <= rest
  {
    OpenChars();
    var s := u + OPEN + rest;
    assert forall k :: 0 <= k < |u| ==> s[k] == u[k];
    assert forall k :: |u| <= k < |u| + 9 ==> s[k] == OPEN[k - |u|];
    AtChar(s, CLOSE, i, 0);
    assert i == |u| + 8;
    assert s[i..i + 5][1..] == TAIL;
    assert rest[..4] == s[i..i + 5][1..];
  }

  /** Up to and with an opener there is no closing text, unless its tail follows. */
  lemma FreeOpener(u: string, rest: string)
    requires '\'' !in u && !(TAIL <= rest)
    ensures Free(u + OPEN, rest, CLOSE)
  {
    forall i | 0 <= i < |u + OPEN|
      ensures !At(u + OPEN + rest, CLOSE, i)
    {
      if At(u + OPEN + rest, CLOSE, i) {
        CloserAtQuote(u, rest, i);
      }
    }
  }

  lemma TailOfNameAlone(file: string)
    ensures TAIL <= file + CLOSE <==> TAIL <= file
  {
    TailOfName(file, []);
    assert file + CLOSE + [] == file + CLOSE;
  }

  lemma NameText(u: string, file: string)
    ensures u + (OPEN + file) + CLOSE == u + OPEN + (file + CLOSE)
  {
  }

  /** A name behind text in which no closing text starts. */
  lemma NameBehindText(v: string, file: string, name: string)
    requires ReadName(file) && Free(v, file + CLOSE, CLOSE) && name + CLOSE == v + (file + CLOSE)
    ensures ReadName(name)
  {
    FindBehind(v, file + CLOSE, CLOSE);
  }

  /** Behind a text without quotes and an opener, a name is read up to its own closing text. */
  lemma NameBehindOpener(u: string, file: string)
    requires '\'' !in u && ReadName(file) && !(TAIL <= file)
    ensures ReadName(u + (OPEN + file))
  {
    TailOfNameAlone(file);
    FreeOpener(u, file + CLOSE);
    NameText(u, file);
    NameBehindText(u + OPEN, file, u + (OPEN + file));
  }

  lemma OpenerNameIsRead(file: string)
    requires ReadName(file) && !(TAIL <= file)
    ensures ReadName(OPEN + file)
  {
    NameBehindOpener("", file);
    assert "" + (OPEN + file) == OPEN + file;
  }

  lemma FirstIs(file: string, rest: string, hash: Hasher)
    requires ReadName(file) && hash(file).Some?
    ensures FirstMove(Template(file) + rest, hash) == Round(file, hash(file).value)
  {
    var s := Template(file) + rest;
    NameIsFound(file, rest, OPEN, CLOSE);
    assert At(s, OPEN, 0);
    FindIsFirst(s, OPEN, 0);
    assert s[0 + |OPEN|..] == s[|OPEN|..];
  }

  lemma DigestIsUnclosed(h: string, hash: Hasher)
    requires IsDigest(h)
    ensures OnePass(h + (OPEN + h), hash) == Err(Unclosed) && Names(h + (OPEN + h)) == []
  {
    var s := OPEN + h;
    assert s[|OPEN|..] == h && StartsWith(s, OPEN);
    var r := Find(h, CLOSE);
    if r.Some? {
      AtChar(h, CLOSE, r.value, 0);
    }
    PassOverHex(h, s, hash);
  }

  /** A template does not start within an opener followed by it. */
  lemma FreeOfItself(file: string)
    requires '{' !in file
    ensures Free(OPEN, Template(file), Template(file))
  {
    OpenChars();
    var s, w := OPEN + Template(file), Template(file);
    forall i | 0 <= i < |OPEN|
      ensures !At(s, w, i)
    {
      if At(s, w, i) {
        AtChar(s, w, i, 0);
        AtChar(s, w, i, 1);
        AtChar(s, w, i, 9);
      }
    }
  }

  /** A template and then the same behind an extra opener: for every brace-free name the loop fails. */
  lemma ExtraOpenerFails(file: string, hash: Hasher)
    requires HexDigests(hash) && ReadName(file) && '{' !in file && hash(file).Some?
    ensures Loop(Template(file) + (OPEN + Template(file)), hash) == Err(Unclosed)
  {
    var h, w := hash(file).value, Template(file);
    var s, s' := w + (OPEN + w), h + (OPEN + h);
    FirstIs(file, OPEN + w, hash);
    LoopStep(s, hash);
    RoundTakes(file, OPEN + w, h);
    FreeOfItself(file);
    ReplaceBehind(OPEN, w, w, h);
    RoundTakes(file, [], h);
    assert w + [] == w && h + [] == h;
    assert ReplaceAll(s, w, h) == s';
    DigestIsUnclosed(h, hash);
    PlainIsPass(s', hash);
  }

  lemma LastPasses(name: string, k: string, hash: Hasher)
    requires ReadName(name) && hash(name) == Some(k)
    ensures OnePass(Template(name), hash) == Ok(k) && Names(Template(name)) == [name]
  {
    PassTemplate(name, [], hash);
    assert Template(name) + [] == Template(name) && k + [] == k;
  }

  /** A nested name: the pass reads it, and the loop ends with an error. */
  lemma NestedNameDiffers(file: string, hash: Hasher)
    requires HexDigests(hash) && ReadName(file) && '{' !in file && !(TAIL <= file)
    requires hash(file).Some? && hash(OPEN + file).Some?
    ensures OnePass(Template(file) + Template(OPEN + file), hash).Ok?
    ensures Loop(Template(file) + Template(OPEN + file), hash) == Err(Unclosed)
  {
    OpenerNameIsRead(file);
    LastPasses(OPEN + file, hash(OPEN + file).value, hash);
    PassTemplate(file, Template(OPEN + file), hash);
    assert Template(OPEN + file) == OPEN + Template(file);
    ExtraOpenerFails(file, hash);
  }

  lemma SharedText(x: string)
    ensures OPEN + Template(TAIL + x) == Template(OPEN[..8]) + (x + CLOSE)
  {
    assert OPEN == OPEN[..8] + "'" && CLOSE == "'" + TAIL;
  }

  lemma TextPasses(u: string, hash: Hasher)
    requires '{' !in u
    ensures OnePass(u, hash) == Ok(u) && Names(u) == []
  {
    forall i: nat
      ensures !At(u, OPEN, i)
    {
      if At(u, OPEN, i) {
        AtChar(u, OPEN, i, 0);
      }
    }
    PassCopies(u, hash);
    PassToOpener(u, |u|, hash);
    assert u[|u|..] == [];
  }

  /**
   Why names that start with the tail are set apart. In this family nothing is nested, and yet
   the loop fails: an opener at the end of the second name shares the quote of its closing text,
   and so the first template occurs across the end of the second.
   */
  lemma UnnestedTailDiffers(x: string, hash: Hasher)
    requires HexDigests(hash) && '\'' !in x && '{' !in x
    requires hash(TAIL + x).Some? && hash(OPEN[..8]).Some?
    ensures var s := Template(TAIL + x) + (Template(OPEN[..8]) + (x + CLOSE));
            OnePass(s, hash).Ok? && !Nested(Names(s)) && Loop(s, hash) == Err(Unclosed)
  {
    OpenChars();
    var f, g := TAIL + x, OPEN[..8];
    QuoteFree(f);
    QuoteFree(g);
    TextPasses(x + CLOSE, hash);
    PassTemplate(g, x + CLOSE, hash);
    PassTemplate(f, Template(g) + (x + CLOSE), hash);
    SharedText(x);
    ExtraOpenerFails(f, hash);
    NotNested(f, g);
    assert Names(Template(f) + (Template(g) + (x + CLOSE))) == [f, g];
  }

  lemma NotNested(f: string, g: string)
    requires '{' !in f && '\'' !in g
    ensures !Nested([f, g])
  {
    forall a, b
      ensures !NestedAt([f, g], a, b)
    {
      if NestedAt([f, g], a, b) {
        EndsWithHasBrace(b, a);
      }
    }
  }

  lemma EndsWithHasBrace(y: string, x: string)
    requires EndsWith(y, OPEN + x)
    ensures '{' in y && '\'' in y
  {
    OpenChars();
    var n := |y| - |OPEN + x|;
    assert y[n] == (OPEN + x)[0] && y[n + 8] == (OPEN + x)[8];
  }

  // A name that starts with the tail can also make up for a nested one, if the hashes happen to
  // be the right ones.

  lemma MadeUpText(b: string, k: string)
    ensures OPEN + (k + Template(TAIL + (OPEN + b))) == Template(k + OPEN[..8]) + Template(b)
  {
    assert OPEN == OPEN[..8] + "'" && CLOSE == "'" + TAIL;
  }

  /** Two different short names. */
  predicate IsPair(a: string, b: string) {
    && |a| == |b| && a != b && !(TAIL <= a) && !(TAIL <= b)
    && '\'' !in a && '\'' !in b && '{' !in a && '{' !in b
  }

  /** The last template of the family is left alone. */
  lemma LastIsSkipped(a: string, b: string, k: string)
    requires IsPair(a, b)
    ensures ReplaceAll(Template(TAIL + (OPEN + b)), Template(a), k) == Template(TAIL + (OPEN + b))
  {
    var last := TAIL + (OPEN + b);
    PairIsRead(a, b);
    NotSameEnd(a, b);
    NotHitInside(last, a, []);
    RoundSkips(last, [], a, k);
    assert Template(last) + [] == Template(last);
  }

  /** The middle one loses its end. */
  lemma MiddleIsHit(a: string, k: string, tail: string)
    requires ReadName(a) && ReadName(OPEN + a) && !(TAIL <= a)
    ensures ReplaceAll(Template(OPEN + a) + tail, Template(a), k) == OPEN + (k + ReplaceAll(tail, Template(a), k))
  {
    assert "" + (OPEN + a) == OPEN + a && "" + k == k;
    RoundHits("", a, k, tail);
  }

  lemma PairRound(a: string, b: string, k: string)
    requires IsPair(a, b) && IsDigest(k)
    ensures var s := Template(a) + (Template(OPEN + a) + Template(TAIL + (OPEN + b)));
            ReplaceAll(s, Template(a), k) == k + (Template(k + OPEN[..8]) + Template(b))
  {
    var w, tail := Template(a), Template(TAIL + (OPEN + b));
    PairIsRead(a, b);
    calc {
      ReplaceAll(w + (Template(OPEN + a) + tail), w, k);
    == { RoundTakes(a, Template(OPEN + a) + tail, k); }
      k + ReplaceAll(Template(OPEN + a) + tail, w, k);
    == { MiddleIsHit(a, k, tail); }
      k + (OPEN + (k + ReplaceAll(tail, w, k)));
    == { LastIsSkipped(a, b, k); }
      k + (OPEN + (k + tail));
    == { MadeUpText(b, k); }
      k + (Template(k + OPEN[..8]) + Template(b));
    }
  }

  lemma NotSameEnd(a: string, b: string)
    requires |a| == |b| && a != b
    ensures !EndsWith(TAIL + (OPEN + b), OPEN + a) && TAIL + (OPEN + b) != a
  {
    var y := TAIL + (OPEN + b);
    assert y[|y| - |OPEN + a|..] == OPEN + b;
    assert (OPEN + b)[9..] == b && (OPEN + a)[9..] == a;
  }

  lemma PairIsRead(a: string, b: string)
    requires IsPair(a, b)
    ensures ReadName(a) && ReadName(OPEN + a) && ReadName(TAIL + (OPEN + b))
  {
    QuoteFree(a);
    QuoteFree(b);
    OpenerNameIsRead(a);
    NameBehindOpener(TAIL, b);
  }

  /** The family: nested, and made up for by a name that starts with the tail. */
  function MadeUp(a: string, b: string): string {
    Template(a) + (Template(OPEN + a) + Template(TAIL + (OPEN + b)))
  }

  lemma PairPasses(a: string, b: string, hash: Hasher)
    requires IsPair(a, b) && hash(a).Some? && hash(OPEN + a).Some? && hash(TAIL + (OPEN + b)).Some?
    ensures OnePass(MadeUp(a, b), hash) ==
            Ok(hash(a).value + (hash(OPEN + a).value + hash(TAIL + (OPEN + b)).value))
    ensures Names(MadeUp(a, b)) == [a, OPEN + a, TAIL + (OPEN + b)]
  {
    var last := TAIL + (OPEN + b);
    PairIsRead(a, b);
    LastPasses(last, hash(last).value, hash);
    PassTemplate(OPEN + a, Template(last), hash);
    PassTemplate(a, Template(OPEN + a) + Template(last), hash);
  }

  /** What the pass makes of the family after one round. */
  lemma MadeUpPasses(b: string, k: string, hash: Hasher)
    requires '\'' !in b && IsDigest(k)
    ensures var s, n := k + (Template(k + OPEN[..8]) + Template(b)), k + OPEN[..8];
            && Names(s) == [n, b]
            && (hash(n).Some? && hash(b).Some? ==> OnePass(s, hash) == Ok(k + (hash(n).value + hash(b).value)))
            && (OnePass(s, hash).Ok? ==> hash(n).Some? && hash(b).Some?)
  {
    var n := k + OPEN[..8];
    QuoteFree(b);
    DigestHasNoQuote(k);
    QuoteFree(n);
    PassTemplate(b, [], hash);
    assert Template(b) + [] == Template(b);
    assert hash(b).Some? ==> hash(b).value + [] == hash(b).value;
    PassTemplate(n, Template(b), hash);
    PassOverHex(k, Template(n) + Template(b), hash);
  }

  lemma DigestHasNoQuote(k: string)
    requires IsDigest(k)
    ensures '\'' !in k + OPEN[..8] && !(TAIL <= k + OPEN[..8])
  {
    OpenChars();
    assert (k + OPEN[..8])[0] == k[0];
  }

  /** Pieces of the same length can be compared one by one. */
  lemma SamePieces(k: string, x: string, y: string, u: string, v: string)
    requires |x| == |u| && k + (x + y) == k + (u + v)
    ensures x == u && y == v
  {
    var s := k + (x + y);
    assert s[|k|..] == x + y && s[|k|..] == u + v;
    assert (x + y)[..|x|] == x && (x + y)[|x|..] == y;
    assert (u + v)[..|u|] == u && (u + v)[|u|..] == v;
  }

  lemma MadeUpLoop(a: string, b: string, hash: Hasher)
    requires IsPair(a, b) && HexDigests(hash) && hash(a).Some?
    ensures var k := hash(a).value;
            Loop(MadeUp(a, b), hash) == OnePass(k + (Template(k + OPEN[..8]) + Template(b)), hash)
  {
    var k := hash(a).value;
    var rest := Template(OPEN + a) + Template(TAIL + (OPEN + b));
    QuoteFree(a);
    FirstIs(a, rest, hash);
    LoopStep(MadeUp(a, b), hash);
    PairRound(a, b, k);
    MadeUpIsUnnested(a, b, k);
    MadeUpPasses(b, k, hash);
    UnnestedIsPass(k + (Template(k + OPEN[..8]) + Template(b)), hash);
  }

  /**
   For this family, in which something is nested, loop and pass agree if and only if two pairs
   of files have equal hashes: the ones the loop reads, and the ones the pass reads instead.
   */
  lemma MadeUpAgreesIff(a: string, b: string, hash: Hasher)
    requires IsPair(a, b) && HexDigests(hash)
    requires hash(a).Some? && hash(OPEN + a).Some? && hash(TAIL + (OPEN + b)).Some?
    ensures OnePass(MadeUp(a, b), hash).Ok? && Nested(Names(MadeUp(a, b)))
    ensures Loop(MadeUp(a, b), hash) == OnePass(MadeUp(a, b), hash) <==>
            hash(hash(a).value + OPEN[..8]) == hash(OPEN + a) && hash(b) == hash(TAIL + (OPEN + b))
  {
    var k := hash(a).value;
    PairPasses(a, b, hash);
    assert NestedAt(Names(MadeUp(a, b)), a, OPEN + a);
    MadeUpLoop(a, b, hash);
    MadeUpPasses(b, k, hash);
    var x, y := hash(k + OPEN[..8]), hash(b);
    if x.Some? && y.Some? && Loop(MadeUp(a, b), hash) == OnePass(MadeUp(a, b), hash) {
      SamePieces(k, x.value, y.value, hash(OPEN + a).value, hash(TAIL + (OPEN + b)).value);
    }
  }

  /**
   So no condition on the template alone is exact for names that start with the tail: of the
   same template two hashes make loop and pass agree and differ.
   */
  lemma HashDecides(a: string, b: string, k: string, other: string)
    requires IsPair(a, b) && IsDigest(k) && IsDigest(other) && k != other
    ensures var same: Hasher := _ => Some(k);
            HexDigests(same) && Loop(MadeUp(a, b), same) == OnePass(MadeUp(a, b), same)
    ensures var differs: Hasher := f => if f == b then Some(other) else Some(k);
            HexDigests(differs) && Loop(MadeUp(a, b), differs) != OnePass(MadeUp(a, b), differs)
  {
    var same: Hasher := _ => Some(k);
    MadeUpAgreesIff(a, b, same);
    var differs: Hasher := f => if f == b then Some(other) else Some(k);
    assert |OPEN + a| > |b| && |TAIL + (OPEN + b)| > |b| && a != b;
    MadeUpAgreesIff(a, b, differs);
  }

  lemma MadeUpIsUnnested(a: string, b: string, k: string)
    requires IsPair(a, b) && IsDigest(k)
    ensures ProperNames([k + OPEN[..8], b]) && !Nested([k + OPEN[..8], b])
  {
    DigestHasNoQuote(k);
    var ns := [k + OPEN[..8], b];
    forall x, y
      ensures !NestedAt(ns, x, y)
    {
      if NestedAt(ns, x, y) {
        EndsWithHasBrace(y, x);
      }
    }
  }

  // Where the pass ends with an error, hashes decide as well: the loop may come to read a file
  // that the pass never asks for.

  /** The family: nested, and an opener at the end that is never closed. */
  function LeftOpen(a: string, x: string): string {
    Template(a) + (Template(OPEN + a) + (Template(x) + OPEN))
  }

  lemma OpenerAlone(hash: Hasher)
    ensures OnePass(OPEN, hash) == Err(Unclosed) && Names(OPEN) == []
  {
    OpenChars();
    assert OPEN[9..] == [] && StartsWith(OPEN, OPEN);
    assert Find([], CLOSE) == None;
  }

  lemma LeftOpenPasses(a: string, x: string, hash: Hasher)
    requires IsPair(a, x) && hash(a).Some? && hash(OPEN + a).Some? && hash(x).Some?
    ensures OnePass(LeftOpen(a, x), hash) == Err(Unclosed) && Names(LeftOpen(a, x)) == [a, OPEN + a, x]
  {
    PairIsRead(a, x);
    QuoteFree(x);
    OpenerAlone(hash);
    PassTemplate(x, OPEN, hash);
    PassTemplate(OPEN + a, Template(x) + OPEN, hash);
    PassTemplate(a, Template(OPEN + a) + (Template(x) + OPEN), hash);
  }

  lemma EndIsSkipped(a: string, x: string, k: string)
    requires IsPair(a, x)
    ensures ReplaceAll(Template(x) + OPEN, Template(a), k) == Template(x) + OPEN
  {
    QuoteFree(a);
    QuoteFree(x);
    if EndsWith(x, OPEN + a) {
      EndsWithHasBrace(x, a);
    }
    NotHitInside(x, a, OPEN);
    RoundSkips(x, OPEN, a, k);
    OpenChars();
    assert OPEN[9..] == [];
    RoundIsStuck(OPEN, a, k);
  }

  lemma SwallowedText(x: string, k: string)
    ensures OPEN + (k + (Template(x) + OPEN)) == Template(k + (OPEN + x)) + OPEN
  {
  }

  lemma LeftOpenRound(a: string, x: string, k: string)
    requires IsPair(a, x)
    ensures ReplaceAll(LeftOpen(a, x), Template(a), k) == k + (Template(k + (OPEN + x)) + OPEN)
  {
    var w, tail := Template(a), Template(x) + OPEN;
    PairIsRead(a, x);
    calc {
      ReplaceAll(w + (Template(OPEN + a) + tail), w, k);
    == { RoundTakes(a, Template(OPEN + a) + tail, k); }
      k + ReplaceAll(Template(OPEN + a) + tail, w, k);
    == { MiddleIsHit(a, k, tail); }
      k + (OPEN + (k + ReplaceAll(tail, w, k)));
    == { EndIsSkipped(a, x, k); }
      k + (OPEN + (k + tail));
    == { SwallowedText(x, k); }
      k + (Template(k + (OPEN + x)) + OPEN);
    }
  }

  lemma SwallowedPasses(x: string, k: string, hash: Hasher)
    requires IsDigest(k) && '\'' !in x && !(TAIL <= x)
    ensures var s, n := k + (Template(k + (OPEN + x)) + OPEN), k + (OPEN + x);
            && Names(s) == [n] && ProperNames([n]) && !Nested([n])
            && OnePass(s, hash) == if hash(n).Some? then Err(Unclosed) else Err(CannotRead(n))
  {
    var n := k + (OPEN + x);
    assert '\'' !in k;
    assert n[0] == k[0];
    QuoteFree(x);
    NameBehindOpener(k, x);
    OpenerAlone(hash);
    PassTemplate(n, OPEN, hash);
    PassOverHex(k, Template(n) + OPEN, hash);
  }

  /**
   For this family, in which something is nested and the pass ends with an error, the loop ends
   with the same error if and only if the file whose name it makes up can be read.
   */
  lemma LeftOpenAgreesIff(a: string, x: string, hash: Hasher)
    requires IsPair(a, x) && HexDigests(hash) && hash(a).Some? && hash(OPEN + a).Some? && hash(x).Some?
    ensures OnePass(LeftOpen(a, x), hash) == Err(Unclosed) && Nested(Names(LeftOpen(a, x)))
    ensures Loop(LeftOpen(a, x), hash) == OnePass(LeftOpen(a, x), hash) <==> hash(hash(a).value + (OPEN + x)).Some?
  {
    var k := hash(a).value;
    LeftOpenPasses(a, x, hash);
    assert NestedAt(Names(LeftOpen(a, x)), a, OPEN + a);
    QuoteFree(a);
    FirstIs(a, Template(OPEN + a) + (Template(x) + OPEN), hash);
    LoopStep(LeftOpen(a, x), hash);
    LeftOpenRound(a, x, k);
    SwallowedPasses(x, k, hash);
    UnnestedIsPass(k + (Template(k + (OPEN + x)) + OPEN), hash);
  }
}
