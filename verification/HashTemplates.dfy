/**
 Cache keys with `{{ hash('file') }}` templates.

 The rewriting loop takes the first template, hashes its file, and replaces every copy of
 that template at once; then it starts over. The string may grow, but a hash is hexadecimal
 text, so every round removes opening braces and adds none.
 */
module HashTemplates {
  import opened Wrappers

  datatype Error = Unclosed | CannotRead(file: string)

  datatype Result = Ok(value: string) | Err(error: Error)

  const OPEN: string := "{{ hash('"
  const CLOSE: string := "') }}"

  /** The digest of a file in hexadecimal, if the file can be read. */
  type Hasher = string -> Option<string>

  predicate IsHex(c: char) { '0' <= c <= '9' || 'a' <= c <= 'f' }

  ghost predicate HexDigests(hash: Hasher) {
    forall f :: hash(f).Some? ==> |hash(f).value| == 64 && forall i :: 0 <= i < 64 ==> IsHex(hash(f).value[i])
  }

  predicate StartsWith(s: string, w: string) {
    |w| <= |s| && s[..|w|] == w
  }

  predicate At(s: string, w: string, i: nat) {
    i + |w| <= |s| && s[i..i + |w|] == w
  }

  lemma AtDrop(s: string, k: nat, w: string, i: nat)
    requires k <= |s|
    ensures At(s[k..], w, i) <==> At(s, w, k + i)
  {
    if k + i + |w| <= |s| {
      assert s[k..][i..i + |w|] == s[k + i..k + i + |w|];
    }
  }

  /** Occurrences behind the first character are those of the tail. */
  lemma AtTail(s: string, w: string)
    requires s != []
    ensures forall i :: 0 < i <= |s| ==> (At(s, w, i) <==> At(s[1..], w, i - 1))
    ensures forall i: nat :: At(s[1..], w, i) ==> At(s, w, i + 1)
  {
    forall i | 0 < i <= |s|
      ensures At(s, w, i) <==> At(s[1..], w, i - 1)
    {
      AtDrop(s, 1, w, i - 1);
    }
    forall i: nat
      ensures At(s[1..], w, i) ==> At(s, w, i + 1)
    {
      AtDrop(s, 1, w, i);
    }
  }

  /** `str::find`: the first position at which `w` occurs. */
  function Find(s: string, w: string): (r: Option<nat>)
    ensures r.Some? ==> At(s, w, r.value)
    ensures r.Some? ==> forall i :: 0 <= i < r.value ==> !At(s, w, i)
    ensures r.None? ==> forall i :: 0 <= i <= |s| ==> !At(s, w, i)
    decreases |s|
  {
    if StartsWith(s, w) then
      Some(0)
    else if s == [] then
      None
    else
      AtTail(s, w);
      match Find(s[1..], w)
      case None => None
      case Some(k) => Some(k + 1)
  }

  /** `str::replace`: every occurrence of a non-empty `w`, from left to right. */
  function ReplaceAll(s: string, w: string, text: string): string
    requires w != []
    decreases |s|
  {
    if s == [] then []
    else if StartsWith(s, w) then text + ReplaceAll(s[|w|..], w, text)
    else [s[0]] + ReplaceAll(s[1..], w, text)
  }

  function Template(file: string): string { OPEN + file + CLOSE }

  /** The number of opening braces, which every round of the loop reduces. */
  function Braces(s: string): nat {
    if s == [] then 0 else (if s[0] == '{' then 1 else 0) + Braces(s[1..])
  }

  lemma {:induction false} BracesAppend(a: string, b: string)
    ensures Braces(a + b) == Braces(a) + Braces(b)
    decreases |a|
  {
    if a == [] {
      assert a + b == b;
    } else {
      assert (a + b)[1..] == a[1..] + b;
      BracesAppend(a[1..], b);
    }
  }

  lemma {:induction false} HexHasNoBraces(s: string)
    requires forall i :: 0 <= i < |s| ==> IsHex(s[i])
    ensures Braces(s) == 0
  {
    if s != [] {
      HexHasNoBraces(s[1..]);
    }
  }

  lemma TemplateHasBraces(file: string)
    ensures Braces(Template(file)) >= 2
  {
    assert Template(file)[1..][1..] == Template(file)[2..];
  }

  /** Replacing templates by brace-free text never adds a brace, and removes some if one occurs. */
  lemma {:induction false} ReplaceRemovesBraces(s: string, file: string, text: string)
    requires Braces(text) == 0
    ensures Braces(ReplaceAll(s, Template(file), text)) <= Braces(s)
    ensures (exists i :: 0 <= i <= |s| && At(s, Template(file), i)) ==>
              Braces(ReplaceAll(s, Template(file), text)) < Braces(s)
    decreases |s|
  {
    var w := Template(file);
    if s == [] {
    } else if StartsWith(s, w) {
      TemplateHasBraces(file);
      ReplaceRemovesBraces(s[|w|..], file, text);
      BracesAppend(text, ReplaceAll(s[|w|..], w, text));
      assert s == w + s[|w|..];
      BracesAppend(w, s[|w|..]);
    } else {
      ReplaceRemovesBraces(s[1..], file, text);
      BracesAppend([s[0]], ReplaceAll(s[1..], w, text));
      BracesAppend([s[0]], s[1..]);
      assert s == [s[0]] + s[1..];
      if exists i :: 0 <= i <= |s| && At(s, w, i) {
        var i :| 0 <= i <= |s| && At(s, w, i);
        AtTail(s, w);
        assert At(s[1..], w, i - 1);
      }
    }
  }

  // ---------------------------------------------------------------------------
  // One pass from left to right
  // ---------------------------------------------------------------------------

  /** The reference: copy text, and put the hash in place of each template as it comes. */
  function OnePass(s: string, hash: Hasher): Result
    decreases |s|
  {
    if s == [] then Ok([])
    else if StartsWith(s, OPEN) then
      var after := s[|OPEN|..];
      match Find(after, CLOSE)
      case None => Err(Unclosed)
      case Some(end) =>
        match hash(after[..end])
        case None => Err(CannotRead(after[..end]))
        case Some(h) => Prepend(h, OnePass(after[end + |CLOSE|..], hash))
    else Prepend([s[0]], OnePass(s[1..], hash))
  }

  function Prepend(a: string, r: Result): Result {
    match r
    case Ok(b) => Ok(a + b)
    case Err(e) => Err(e)
  }

  /** The names the pass reads, in order, up to an opener without a closer. */
  function Names(s: string): seq<string>
    decreases |s|
  {
    if s == [] then []
    else if StartsWith(s, OPEN) then
      var after := s[|OPEN|..];
      match Find(after, CLOSE)
      case None => []
      case Some(end) => [after[..end]] + Names(after[end + |CLOSE|..])
    else Names(s[1..])
  }

  /** No template of the string names a file whose name holds an opening brace. */
  predicate PlainNames(s: string) {
    forall n :: n in Names(s) ==> '{' !in n
  }

  function Without(ns: seq<string>, x: string): seq<string> {
    if ns == [] then [] else (if ns[0] == x then [] else [ns[0]]) + Without(ns[1..], x)
  }

  lemma {:induction false} WithoutMembers(ns: seq<string>, x: string)
    ensures forall n :: n in Without(ns, x) <==> n in ns && n != x
  {
    if ns != [] {
      WithoutMembers(ns[1..], x);
      assert ns == [ns[0]] + ns[1..];
    }
  }

  lemma StartChar(s: string, w: string, i: nat)
    requires StartsWith(s, w) && i < |w|
    ensures i < |s| && s[i] == w[i]
  {
    assert s[..|w|][i] == s[i];
  }

  lemma AtChar(s: string, w: string, i: nat, k: nat)
    requires At(s, w, i) && k < |w|
    ensures i + k < |s| && s[i + k] == w[k]
  {
    assert s[i..i + |w|][k] == s[i + k];
  }

  /** `w` occurs at `k` and nowhere before. */
  predicate FirstAt(s: string, w: string, k: nat) {
    At(s, w, k) && forall i :: 0 <= i < k ==> !At(s, w, i)
  }

  lemma FindIsFirst(s: string, w: string, k: nat)
    ensures Find(s, w) == Some(k) <==> FirstAt(s, w, k)
  {
    var r := Find(s, w);
    assert FirstAt(s, w, k) ==> r.Some?;
  }

  lemma StartsAgree(s: string, t: string, n: nat, i: nat, w: string)
    requires i + |w| <= n <= |s| && n <= |t| && s[..n] == t[..n]
    ensures At(t, w, i) <==> At(s, w, i)
  {
    assert s[i..i + |w|] == s[..n][i..i + |w|];
    assert t[i..i + |w|] == t[..n][i..i + |w|];
  }

  /** What follows a first occurrence does not matter to it. */
  lemma FindLocal(s: string, t: string, w: string, k: nat)
    requires Find(s, w) == Some(k) && k + |w| <= |t| && s[..k + |w|] == t[..k + |w|]
    ensures Find(t, w) == Some(k)
  {
    FindIsFirst(s, w, k);
    FindIsFirst(t, w, k);
    FirstLocal(s, t, w, k);
  }

  lemma FirstLocal(s: string, t: string, w: string, k: nat)
    requires FirstAt(s, w, k) && k + |w| <= |t| && s[..k + |w|] == t[..k + |w|]
    ensures FirstAt(t, w, k)
  {
    StartsAgree(s, t, k + |w|, k, w);
    forall i | 0 <= i < k
      ensures !At(t, w, i)
    {
      StartsAgree(s, t, k + |w|, i, w);
    }
  }

  /** No template occurs, so nothing is replaced. */
  lemma {:induction false} ReplaceNothing(s: string, w: string, text: string)
    requires w != [] && forall i :: 0 <= i <= |s| ==> !At(s, w, i)
    ensures ReplaceAll(s, w, text) == s
    decreases |s|
  {
    if s != [] {
      AtTail(s, w);
      assert !At(s, w, 0);
      ReplaceNothing(s[1..], w, text);
    }
  }

  /** No template starts within `u`, so replacing goes on behind it. */
  lemma {:induction false} ReplaceBehind(u: string, rest: string, w: string, text: string)
    requires w != [] && forall i :: 0 <= i < |u| ==> !At(u + rest, w, i)
    ensures ReplaceAll(u + rest, w, text) == u + ReplaceAll(rest, w, text)
    decreases |u|
  {
    if u == [] {
      assert u + rest == rest;
    } else {
      var v := u[1..];
      assert (u + rest)[1..] == v + rest;
      AtTail(u + rest, w);
      assert !At(u + rest, w, 0);
      ReplaceBehind(v, rest, w, text);
    }
  }

  /** Replacement text cannot complete a piece that ends in a character it does not contain. */
  lemma {:induction false} NoNewStart(t: string, file: string, h: string, w: string)
    requires |h| == 64 && forall i :: 0 <= i < 64 ==> IsHex(h[i])
    requires 0 < |w| <= 64 && !IsHex(w[|w| - 1])
    requires StartsWith(ReplaceAll(t, Template(file), h), w)
    ensures StartsWith(t, w)
    decreases |t|
  {
    var r := ReplaceAll(t, Template(file), h);
    StartChar(r, w, |w| - 1);
    if |w| == 1 {
      assert r[0] == w[0];
    } else if !StartsWith(t, Template(file)) {
      var r' := ReplaceAll(t[1..], Template(file), h);
      assert r' == r[1..];
      assert r'[..|w| - 1] == r[..|w|][1..] == w[1..];
      NoNewStart(t[1..], file, h, w[1..]);
      assert r[0] == r[..|w|][0] == w[0];
      assert t[..|w|] == [t[0]] + t[1..][..|w| - 1];
    }
  }

  lemma NotOpen(s: string)
    requires s != [] && s[0] != '{'
    ensures !StartsWith(s, OPEN)
  {
    if StartsWith(s, OPEN) {
      StartChar(s, OPEN, 0);
    }
  }

  /** The pass copies hexadecimal text. */
  lemma {:induction false} PassOverHex(h: string, rest: string, hash: Hasher)
    requires forall i :: 0 <= i < |h| ==> IsHex(h[i])
    ensures OnePass(h + rest, hash) == Prepend(h, OnePass(rest, hash))
    ensures Names(h + rest) == Names(rest)
    decreases |h|
  {
    if h == [] {
      assert h + rest == rest;
      assert forall b: string :: [] + b == b;
    } else {
      NotOpen(h + rest);
      assert (h + rest)[1..] == h[1..] + rest;
      PassOverHex(h[1..], rest, hash);
      assert forall b: string :: [h[0]] + (h[1..] + b) == h + b;
    }
  }

  /** A file name as it is read: it ends at the first closing text behind it. */
  predicate ReadName(file: string) {
    Find(file + CLOSE, CLOSE) == Some(|file|)
  }

  lemma NameBefore(file: string, close: string, rest: string)
    requires Find(file + close, close) == Some(|file|)
    ensures Find(file + close + rest, close) == Some(|file|)
  {
    var t := file + close;
    assert t[..|t|] == (t + rest)[..|t|];
    FindLocal(t, t + rest, close, |file|);
  }

  lemma Parts(open: string, file: string, close: string, rest: string)
    ensures var s := open + file + close + rest;
            StartsWith(s, open) && s[|open|..] == file + close + rest
  {
  }

  lemma NameParts(file: string, close: string, rest: string)
    ensures var t := file + close + rest;
            t[..|file|] == file && t[|file| + |close|..] == rest
  {
  }

  /** The name between opener and closer is found as such. */
  lemma NameIsFound(file: string, rest: string, open: string, close: string)
    requires Find(file + close, close) == Some(|file|)
    ensures var s := open + file + close + rest;
            && StartsWith(s, open) && Find(s[|open|..], close) == Some(|file|)
            && s[|open|..][..|file|] == file && s[|open|..][|file| + |close|..] == rest
  {
    Parts(open, file, close, rest);
    NameBefore(file, close, rest);
    NameParts(file, close, rest);
  }

  /** The pass takes a template at the front as such. */
  lemma PassTemplate(file: string, rest: string, hash: Hasher)
    requires ReadName(file)
    ensures OnePass(Template(file) + rest, hash) ==
            match hash(file)
            case None => Err(CannotRead(file))
            case Some(h) => Prepend(h, OnePass(rest, hash))
    ensures Names(Template(file) + rest) == [file] + Names(rest)
  {
    NameIsFound(file, rest, OPEN, CLOSE);
  }

  lemma CutAt(after: string, close: string, end: nat)
    requires At(after, close, end)
    ensures after == after[..end] + close + after[end + |close|..]
    ensures after[..end + |close|] == after[..end] + close
  {
    assert after == after[..end] + after[end..end + |close|] + after[end + |close|..];
  }

  lemma NameAlone(after: string, close: string, end: nat, t: string)
    requires Find(after, close) == Some(end) && |t| == end + |close| && after[..end + |close|] == t
    ensures Find(t, close) == Some(end)
  {
    assert t[..end + |close|] == t;
    FindLocal(after, t, close, end);
  }

  lemma NameAt(after: string, close: string, end: nat)
    requires Find(after, close) == Some(end)
    ensures after == after[..end] + close + after[end + |close|..]
    ensures Find(after[..end] + close, close) == Some(end)
  {
    CutAt(after, close, end);
    NameAlone(after, close, end, after[..end] + close);
  }

  lemma Assemble(open: string, file: string, close: string, rest: string)
    ensures open + (file + close + rest) == open + file + close + rest
  {
  }

  /** A string that starts with an opener and has a closer behind it splits into template and rest. */
  lemma SplitTemplate(s: string, end: nat)
    requires StartsWith(s, OPEN) && Find(s[|OPEN|..], CLOSE) == Some(end)
    ensures var file := s[|OPEN|..][..end];
            && s == Template(file) + s[|OPEN|..][end + |CLOSE|..]
            && ReadName(file)
  {
    var after := s[|OPEN|..];
    assert s == OPEN + after;
    NameAt(after, CLOSE, end);
    Assemble(OPEN, after[..end], CLOSE, after[end + |CLOSE|..]);
  }

  lemma TemplateOpens(s: string, file: string)
    requires StartsWith(s, Template(file))
    ensures StartsWith(s, OPEN)
  {
    assert s[..|OPEN|] == s[..|Template(file)|][..|OPEN|];
  }

  lemma SameName(after: string, close: string, file: string, rest: string, other: string, rest': string)
    requires after == file + close + rest && after == other + close + rest'
    requires Find(file + close, close) == Some(|file|) && Find(other + close, close) == Some(|other|)
    ensures file == other
  {
    NameBefore(file, close, rest);
    NameBefore(other, close, rest');
    NameParts(file, close, rest);
    NameParts(other, close, rest');
  }

  /** Two templates cannot start at one place, for each name ends at the first closing text. */
  lemma TemplatesDiffer(file: string, other: string, rest: string)
    requires ReadName(file) && ReadName(other) && StartsWith(Template(file) + rest, Template(other))
    ensures file == other
  {
    var s, w := Template(file) + rest, Template(other);
    var rest' := s[|w|..];
    assert s == w + rest';
    Parts(OPEN, file, CLOSE, rest);
    Parts(OPEN, other, CLOSE, rest');
    SameName(s[|OPEN|..], CLOSE, file, rest, other, rest');
  }

  /** Braces stand side by side only where a template starts. */
  lemma BracesOnlyAtStart(file: string, i: nat)
    requires '{' !in file && i < |Template(file)| && Template(file)[i] == '{'
    ensures i == 0 || (i == 1 && Template(file)[2] != '{')
  {
    assert forall k :: 0 <= k < |file| ==> Template(file)[|OPEN| + k] == file[k];
    assert forall k :: 0 <= k < |CLOSE| ==> Template(file)[|OPEN| + |file| + k] == CLOSE[k];
  }

  /** Within one template, whose name has no brace, no other template starts. */
  lemma TemplatesDoNotNest(file: string, other: string, rest: string, i: nat)
    requires '{' !in file && 0 < i < |Template(file)|
    ensures !At(Template(file) + rest, Template(other), i)
  {
    var s := Template(file) + rest;
    if At(s, Template(other), i) {
      AtChar(s, Template(other), i, 0);
      AtChar(s, Template(other), i, 1);
      BracesOnlyAtStart(file, i);
    }
  }

  /** The template of `other` does not start strictly inside that of `file`. */
  ghost predicate NoneInside(file: string, other: string, rest: string) {
    forall i :: 0 < i < |Template(file)| ==> !At(Template(file) + rest, Template(other), i)
  }

  /** Wherever the template of `file` occurs, the pass reads it as that template, or as text. */
  ghost predicate NoHit(s: string, file: string)
    decreases |s|
  {
    if s == [] then true
    else if StartsWith(s, OPEN) then
      var after := s[|OPEN|..];
      match Find(after, CLOSE)
      case None => true
      case Some(end) =>
        var name, rest := after[..end], after[end + |CLOSE|..];
        (name == file || NoneInside(name, file, rest)) && NoHit(rest, file)
    else NoHit(s[1..], file)
  }

  /**
   One round of the loop does not change what the pass makes of the string: replacing all
   copies of one template by its hash leaves the pass only less to do.
   */
  lemma {:induction false} RoundKeepsPass(s: string, file: string, h: string, hash: Hasher)
    requires HexDigests(hash) && hash(file) == Some(h) && ReadName(file) && NoHit(s, file)
    ensures OnePass(ReplaceAll(s, Template(file), h), hash) == OnePass(s, hash)
    ensures Names(ReplaceAll(s, Template(file), h)) == Without(Names(s), file)
    decreases |s|
  {
    if s == [] {
    } else if StartsWith(s, OPEN) {
      RoundAtOpener(s, file, h, hash);
    } else {
      var r := ReplaceAll(s[1..], Template(file), h);
      RoundKeepsPass(s[1..], file, h, hash);
      TextStaysText(s, file, h);
      assert ([s[0]] + r)[1..] == r;
    }
  }

  /** A character that starts no template starts none after a round either. */
  lemma TextStaysText(s: string, file: string, h: string)
    requires |h| == 64 && (forall i :: 0 <= i < 64 ==> IsHex(h[i])) && s != [] && !StartsWith(s, OPEN)
    ensures var r := ReplaceAll(s[1..], Template(file), h);
            ReplaceAll(s, Template(file), h) == [s[0]] + r && !StartsWith([s[0]] + r, OPEN)
  {
    if StartsWith(s, Template(file)) {
      TemplateOpens(s, file);
    }
    var r := ReplaceAll(s[1..], Template(file), h);
    assert ReplaceAll(s, Template(file), h) == [s[0]] + r;
    if StartsWith([s[0]] + r, OPEN) {
      NoNewStart(s, file, h, OPEN);
    }
  }

  /** Wherever a template starts, a closing text follows. */
  lemma TemplatesHaveClosers(s: string, file: string, open: string, close: string)
    requires |open| <= |s|
    ensures forall i :: 0 <= i <= |s| && At(s, open + file + close, i) ==> At(s[|open|..], close, i + |file|)
  {
    forall i | 0 <= i <= |s| && At(s, open + file + close, i)
      ensures At(s[|open|..], close, i + |file|)
    {
      var w, k := open + file + close, i + |open| + |file|;
      assert s[k..k + |close|] == s[i..i + |w|][|open| + |file|..] == close;
      AtDrop(s, |open|, close, i + |file|);
    }
  }

  /** A template that is not hit stays, and the round goes on behind it. */
  lemma RoundSkips(name: string, rest: string, file: string, h: string)
    requires ReadName(name) && ReadName(file) && name != file && NoneInside(name, file, rest)
    ensures ReplaceAll(Template(name) + rest, Template(file), h) ==
            Template(name) + ReplaceAll(rest, Template(file), h)
  {
    var s, w := Template(name) + rest, Template(file);
    forall i | 0 <= i < |Template(name)|
      ensures !At(s, w, i)
    {
      if i == 0 && At(s, w, 0) {
        TemplatesDiffer(name, file, rest);
      }
    }
    ReplaceBehind(Template(name), rest, w, h);
  }

  lemma RoundTakes(file: string, rest: string, h: string)
    ensures ReplaceAll(Template(file) + rest, Template(file), h) == h + ReplaceAll(rest, Template(file), h)
  {
    var w := Template(file);
    assert StartsWith(w + rest, w) && (w + rest)[|w|..] == rest;
  }

  /** Behind an opener without a closer nothing is replaced. */
  lemma RoundIsStuck(s: string, file: string, h: string)
    requires StartsWith(s, OPEN) && Find(s[|OPEN|..], CLOSE) == None
    ensures ReplaceAll(s, Template(file), h) == s
  {
    TemplatesHaveClosers(s, file, OPEN, CLOSE);
    ReplaceNothing(s, Template(file), h);
  }

  lemma {:induction false} RoundAtOpener(s: string, file: string, h: string, hash: Hasher)
    requires HexDigests(hash) && hash(file) == Some(h) && ReadName(file) && NoHit(s, file)
    requires StartsWith(s, OPEN)
    ensures OnePass(ReplaceAll(s, Template(file), h), hash) == OnePass(s, hash)
    ensures Names(ReplaceAll(s, Template(file), h)) == Without(Names(s), file)
    decreases |s|, 0
  {
    var after := s[|OPEN|..];
    match Find(after, CLOSE)
    case None =>
      RoundIsStuck(s, file, h);
    case Some(end) =>
      var name, rest := after[..end], after[end + |CLOSE|..];
      SplitTemplate(s, end);
      PassTemplate(name, rest, hash);
      RoundKeepsPass(rest, file, h, hash);
      var r := ReplaceAll(rest, Template(file), h);
      assert ([name] + Names(rest))[1..] == Names(rest);
      if name == file {
        RoundTakes(file, rest, h);
        PassOverHex(h, r, hash);
      } else {
        RoundSkips(name, rest, file, h);
        PassTemplate(name, r, hash);
      }
  }

  /** The pass copies everything before the first opener. */
  lemma {:induction false} PassToOpener(s: string, k: nat, hash: Hasher)
    requires k <= |s| && forall i :: 0 <= i < k ==> !At(s, OPEN, i)
    ensures OnePass(s, hash) == Prepend(s[..k], OnePass(s[k..], hash))
    ensures Names(s) == Names(s[k..])
    decreases k
  {
    if k == 0 {
      assert s[0..] == s;
      assert forall b: string :: s[..0] + b == b;
    } else {
      AtTail(s, OPEN);
      assert !At(s, OPEN, 0);
      PassToOpener(s[1..], k - 1, hash);
      assert s[1..][k - 1..] == s[k..];
      assert forall b: string :: [s[0]] + (s[1..][..k - 1] + b) == s[..k] + b;
    }
  }

  /** What the pass makes of a string whose first opener has no closer, or names no readable file. */
  lemma PassFails(s: string, start: nat, hash: Hasher)
    requires start + |OPEN| <= |s| && At(s, OPEN, start)
    requires forall i :: 0 <= i < start ==> !At(s, OPEN, i)
    ensures var after := s[start + |OPEN|..];
            match Find(after, CLOSE)
            case None => OnePass(s, hash) == Err(Unclosed)
            case Some(end) => hash(after[..end]).None? ==> OnePass(s, hash) == Err(CannotRead(after[..end]))
  {
    PassToOpener(s, start, hash);
    AtDrop(s, start, OPEN, 0);
    assert s[start + |OPEN|..] == s[start..][|OPEN|..];
  }

  /** The first template of a string: the pass reads its name first, and a round removes braces. */
  lemma RoundAdvances(s: string, start: nat, end: nat, file: string, h: string)
    requires start + |OPEN| <= |s| && At(s, OPEN, start) && forall i :: 0 <= i < start ==> !At(s, OPEN, i)
    requires Find(s[start + |OPEN|..], CLOSE) == Some(end) && file == s[start + |OPEN|..][..end]
    requires |h| == 64 && forall i :: 0 <= i < 64 ==> IsHex(h[i])
    ensures Braces(ReplaceAll(s, Template(file), h)) < Braces(s)
    ensures ReadName(file) && Names(s) != [] && Names(s)[0] == file
  {
    PassToOpener(s, start, _ => None);
    AtDrop(s, start, OPEN, 0);
    assert s[start + |OPEN|..] == s[start..][|OPEN|..];
    FirstTemplate(s, start, end);
    HexHasNoBraces(h);
    ReplaceRemovesBraces(s, file, h);
  }

  /** Without an opener there is nothing to do. */
  lemma PassCopies(s: string, hash: Hasher)
    requires Find(s, OPEN) == None
    ensures OnePass(s, hash) == Ok(s)
  {
    PassToOpener(s, |s|, hash);
    assert s[..|s|] == s && s[|s|..] == [];
  }

  // ---------------------------------------------------------------------------
  // The loop
  // ---------------------------------------------------------------------------

  /** What the loop makes of a string. */
  function Loop(s: string, hash: Hasher): Result
    requires HexDigests(hash)
    decreases Braces(s)
  {
    match Find(s, OPEN)
    case None => Ok(s)
    case Some(start) =>
      var after := s[start + |OPEN|..];
      match Find(after, CLOSE)
      case None => Err(Unclosed)
      case Some(end) =>
        match hash(after[..end])
        case None => Err(CannotRead(after[..end]))
        case Some(h) =>
          RoundAdvances(s, start, end, after[..end], h);
          Loop(ReplaceAll(s, Template(after[..end]), h), hash)
  }

  /**
   `resolve_hash_templates`. It terminates on every template and leaves no opener in a
   successful result. `Loop` is what it computes; the lemmas below and in `HashNesting` say
   when that is one pass from left to right.
   */
  method ResolveHashTemplates(template: string, hash: Hasher) returns (r: Result)
    requires HexDigests(hash)
    ensures r == Loop(template, hash)
    ensures r.Ok? ==> Find(r.value, OPEN) == None
    ensures PlainNames(template) ==> r == OnePass(template, hash)
  {
    PlainIsPass(template, hash);
    var result := template;
    while true
      invariant Loop(result, hash) == Loop(template, hash)
      decreases Braces(result)
    {
      LoopStep(result, hash);
      var found := Find(result, OPEN);
      if found.None? {
        return Ok(result);
      }
      var start := found.value;
      var after := result[start + |OPEN|..];
      var end := Find(after, CLOSE);
      if end.None? {
        return Err(Unclosed);
      }
      var filename := after[..end.value];
      var digest := hash(filename);
      if digest.None? {
        return Err(CannotRead(filename));
      }
      assert FirstMove(result, hash) == Round(filename, digest.value);
      result := ReplaceAll(result, Template(filename), digest.value);
    }
  }

  lemma FirstTemplate(s: string, start: nat, end: nat)
    requires start <= |s| && At(s, OPEN, start) && Find(s[start..][|OPEN|..], CLOSE) == Some(end)
    ensures var file := s[start..][|OPEN|..][..end]; At(s, Template(file), start) && ReadName(file)
  {
    AtDrop(s, start, OPEN, 0);
    SplitTemplate(s[start..], end);
    var file := s[start..][|OPEN|..][..end];
    assert At(s[start..], Template(file), 0);
    AtDrop(s, start, Template(file), 0);
  }

  /** The first file the loop would hash, or how it ends at once. */
  datatype Move = Stop(r: Result) | Round(file: string, h: string)

  function FirstMove(s: string, hash: Hasher): Move {
    match Find(s, OPEN)
    case None => Stop(Ok(s))
    case Some(start) =>
      var after := s[start + |OPEN|..];
      match Find(after, CLOSE)
      case None => Stop(Err(Unclosed))
      case Some(end) =>
        match hash(after[..end])
        case None => Stop(Err(CannotRead(after[..end])))
        case Some(h) => Round(after[..end], h)
  }

  /** One step of the loop, and what the pass has to say about it. */
  lemma LoopStep(s: string, hash: Hasher)
    requires HexDigests(hash)
    ensures FirstMove(s, hash).Stop? ==> Loop(s, hash) == OnePass(s, hash) == FirstMove(s, hash).r
    ensures FirstMove(s, hash).Round? ==>
              var m := FirstMove(s, hash);
              && hash(m.file) == Some(m.h) && ReadName(m.file) && Names(s) != [] && Names(s)[0] == m.file
              && Braces(ReplaceAll(s, Template(m.file), m.h)) < Braces(s)
              && Loop(s, hash) == Loop(ReplaceAll(s, Template(m.file), m.h), hash)
  {
    var found := Find(s, OPEN);
    if found.None? {
      PassCopies(s, hash);
    } else {
      var start := found.value;
      PassFails(s, start, hash);
      var after := s[start + |OPEN|..];
      var end := Find(after, CLOSE);
      if end.Some? {
        var h := hash(after[..end.value]);
        if h.Some? {
          RoundAdvances(s, start, end.value, after[..end.value], h.value);
        }
      }
    }
  }

  /** A condition on names that rules a hit out. */
  lemma {:induction false} PlainIsNotHit(s: string, file: string)
    requires PlainNames(s)
    ensures NoHit(s, file)
    decreases |s|
  {
    if s == [] {
    } else if StartsWith(s, OPEN) {
      var after := s[|OPEN|..];
      var end := Find(after, CLOSE);
      if end.Some? {
        var name, rest := after[..end.value], after[end.value + |CLOSE|..];
        assert name in Names(s) && forall n :: n in Names(rest) ==> n in Names(s);
        forall i | 0 < i < |Template(name)|
          ensures !At(Template(name) + rest, Template(file), i)
        {
          TemplatesDoNotNest(name, file, rest, i);
        }
        PlainIsNotHit(rest, file);
      }
    } else {
      PlainIsNotHit(s[1..], file);
    }
  }

  /** When no file name holds an opening brace, the loop is one pass. */
  lemma {:induction false} PlainIsPass(s: string, hash: Hasher)
    requires HexDigests(hash)
    ensures PlainNames(s) ==> Loop(s, hash) == OnePass(s, hash)
    decreases Braces(s)
  {
    if PlainNames(s) {
      LoopStep(s, hash);
      match FirstMove(s, hash)
      case Stop(_) =>
      case Round(file, h) =>
        PlainIsNotHit(s, file);
        RoundKeepsPass(s, file, h, hash);
        WithoutMembers(Names(s), file);
        PlainIsPass(ReplaceAll(s, Template(file), h), hash);
    }
  }
}
