/** The completion engine's text: splitting a command line, escaping file
    names, and what accepting a path suggestion does to the token typed. */
module Autocomplete {
  import opened Wrappers

  // ----- splitting a segment into words -----

  /** The scanner between two characters. `esc`: a backslash waits for what it escapes. */
  datatype Lex = Lex(words: seq<string>, cur: string, quote: Option<char>, esc: bool)

  const START := Lex([], "", None, false)

  function Step(s: Lex, c: char): Lex {
    if s.quote.Some? then s.(cur := s.cur + [c], quote := if Some(c) == s.quote then None else s.quote)
    else if s.esc then s.(cur := s.cur + [c], esc := false)
    else if c == '\\' then s.(cur := s.cur + [c], esc := true)
    else if c == '\'' || c == '"' then s.(cur := s.cur + [c], quote := Some(c))
    else if c == ' ' || c == '\t' then (if s.cur == "" then s else s.(words := s.words + [s.cur], cur := ""))
    else s.(cur := s.cur + [c])
  }

  function Scan(s: Lex, text: string): Lex
    decreases |text|
  {
    if text == "" then s else Scan(Step(s, text[0]), text[1..])
  }

  lemma {:induction false} ScanConcat(s: Lex, a: string, b: string)
    ensures Scan(s, a + b) == Scan(Scan(s, a), b)
    decreases |a|
  {
    if a == "" {
      assert a + b == b;
    } else {
      assert (a + b)[1..] == a[1..] + b;
      ScanConcat(Step(s, a[0]), a[1..], b);
    }
  }

  lemma ScanLast(s: Lex, a: string, c: char)
    ensures Scan(s, a + [c]) == Step(Scan(s, a), c)
  {
    ScanConcat(s, a, [c]);
    assert [c][1..] == "";
  }

  /** A line as words already ended, and the one still being typed. */
  method Tokenize(segment: string) returns (words: seq<string>, cur: string)
    ensures words == Scan(START, segment).words && cur == Scan(START, segment).cur
  {
    words, cur := [], "";
    var quote: Option<char> := None;
    var i := 0;
    while i < |segment|
      invariant 0 <= i <= |segment|
      invariant Scan(START, segment) == Scan(Lex(words, cur, quote, false), segment[i..])
    {
      var c := segment[i];
      assert segment[i..][1..] == segment[i + 1..];
      if quote.Some? {
        cur := cur + [c];
        if Some(c) == quote { quote := None; }
        i := i + 1;
        continue;
      }
      if c == '\\' && i + 1 < |segment| {
        assert segment[i + 1..][1..] == segment[i + 2..];
        cur := cur + [c] + [segment[i + 1]];
        i := i + 2;
      } else if c == '\'' || c == '"' {
        quote := Some(c);
        cur := cur + [c];
        i := i + 1;
      } else if c == ' ' || c == '\t' {
        if cur != "" { words, cur := words + [cur], ""; }
        i := i + 1;
      } else {
        cur := cur + [c];
        i := i + 1;
        if c == '\\' {
          assert segment[i..] == "";
          return;
        }
      }
    }
    assert segment[i..] == "";
  }

  /** A word without quotes, backslashes and spaces, or one quoted from end to end. */
  predicate IsWord(w: string) { IsPlain(w) || IsQuoted(w) }

  lemma {:induction false} PlainJoins(s: Lex, w: string)
    requires s.quote.None? && !s.esc && forall k :: 0 <= k < |w| ==> w[k] !in "'\"\\ \t"
    ensures Scan(s, w) == s.(cur := s.cur + w)
    decreases |w|
  {
    if w == "" {
      assert s.cur + w == s.cur;
    } else {
      PlainJoins(Step(s, w[0]), w[1..]);
      assert s.cur + [w[0]] + w[1..] == s.cur + w;
    }
  }

  lemma {:induction false} QuotedJoins(s: Lex, q: char, w: string)
    requires s.quote == Some(q) && forall k :: 0 <= k < |w| ==> w[k] != q
    ensures Scan(s, w) == s.(cur := s.cur + w)
    decreases |w|
  {
    if w == "" {
      assert s.cur + w == s.cur;
    } else {
      QuotedJoins(Step(s, w[0]), q, w[1..]);
      assert s.cur + [w[0]] + w[1..] == s.cur + w;
    }
  }

  predicate IsPlain(w: string) { w != "" && forall k :: 0 <= k < |w| ==> w[k] !in "'\"\\ \t" }

  predicate IsQuoted(w: string) {
    |w| >= 2 && w[0] in "'\"" && w[|w| - 1] == w[0] && forall k :: 0 < k < |w| - 1 ==> w[k] != w[0]
  }

  lemma QuotedWord(s: Lex, w: string)
    requires s.quote.None? && !s.esc && s.cur == "" && IsQuoted(w)
    ensures Scan(s, w) == s.(cur := w)
  {
    hide Scan;
    var q, mid := w[0], w[1..|w| - 1];
    assert w == [q] + mid + [q];
    OneStep(s, q);
    ScanConcat(s, [q], mid);
    QuotedJoins(Step(s, q), q, mid);
    ScanLast(s, [q] + mid, q);
    assert "" + [q] == [q];
  }

  lemma OneStep(s: Lex, c: char)
    ensures Scan(s, [c]) == Step(s, c)
  {
    assert [c][1..] == "";
  }

  lemma WordEnds(s: Lex, w: string)
    requires s.quote.None? && !s.esc && s.cur == "" && IsWord(w)
    ensures Scan(s, w + " ") == s.(words := s.words + [w])
  {
    hide Scan, IsPlain, IsQuoted;
    ScanLast(s, w, ' ');
    if IsQuoted(w) { QuotedWord(s, w); } else { PlainWord(s, w); }
    WordIsThere(w);
  }

  lemma WordIsThere(w: string)
    requires IsWord(w)
    ensures w != ""
  {
  }

  lemma PlainWord(s: Lex, w: string)
    requires s.quote.None? && !s.esc && s.cur == "" && IsPlain(w)
    ensures Scan(s, w) == s.(cur := w)
  {
    hide Scan;
    PlainJoins(s, w);
    assert "" + w == w;
  }

  function Line(words: seq<string>): string {
    if words == [] then "" else Line(words[..|words| - 1]) + words[|words| - 1] + " "
  }

  /** A line of words is split into just those words. */
  lemma {:induction false} WordsReadBack(words: seq<string>)
    requires forall k :: 0 <= k < |words| ==> IsWord(words[k])
    ensures Scan(START, Line(words)) == Lex(words, "", None, false)
  {
    if words != [] {
      hide IsWord, Step, Scan;
      var init, last := words[..|words| - 1], words[|words| - 1];
      WordsReadBack(init);
      ScanConcat(START, Line(init), last + " ");
      Regroup(Line(init), last, " ");
      WordEnds(Lex(init, "", None, false), last);
      assert init + [last] == words;
    }
  }

  // ----- escaping -----

  predicate Special(c: char) {
    c == ' ' || c == '\'' || c == '"' || c == '\\' || c == '$' || c == '&' || c == '|' || c == ';' || c == '<' ||
      c == '>' ||
    c == '(' || c == ')' || c == '*' || c == '?' || c == '[' || c == ']' || c == '#' || c == '~' || c == '!' ||
      c == '{' ||
    c == '}' || c == '`'
  }

  function Escaped(c: char): string { if Special(c) then ['\\', c] else [c] }

  function EscapePath(name: string): string {
    if name == "" then "" else Escaped(name[0]) + EscapePath(name[1..])
  }

  lemma Regroup(a: string, b: string, c: string)
    ensures (a + b) + c == a + (b + c)
  {
  }

  method EscapePathLoop(name: string) returns (out: string)
    ensures out == EscapePath(name)
  {
    hide Special;
    out := "";
    for i := 0 to |name|
      invariant out + EscapePath(name[i..]) == EscapePath(name)
    {
      var c := name[i];
      assert name[i..][1..] == name[i + 1..];
      ghost var before, rest := out, EscapePath(name[i + 1..]);
      assert EscapePath(name[i..]) == Escaped(c) + rest;
      if Special(c) { out := out + ['\\']; }
      out := out + [c];
      assert out == before + Escaped(c);
      Regroup(before, Escaped(c), rest);
    }
    assert name[|name|..] == "";
  }

  function Unescape(s: string): string {
    if s == "" then ""
    else if s[0] == '\\' && |s| > 1 then [s[1]] + Unescape(s[2..])
    else [s[0]] + Unescape(s[1..])
  }

  method UnescapeLoop(s: string) returns (out: string)
    ensures out == Unescape(s)
  {
    out := "";
    var i := 0;
    while i < |s|
      invariant 0 <= i <= |s| && out + Unescape(s[i..]) == Unescape(s)
    {
      if s[i] == '\\' && i + 1 < |s| {
        assert s[i..][2..] == s[i + 2..];
        Regroup(out, [s[i + 1]], Unescape(s[i + 2..]));
        out := out + [s[i + 1]];
        i := i + 2;
      } else {
        assert s[i..][1..] == s[i + 1..];
        Regroup(out, [s[i]], Unescape(s[i + 1..]));
        out := out + [s[i]];
        i := i + 1;
      }
    }
    assert s[i..] == "";
  }

  /** A backslash at the end of `s` waits for the next character. */
  function Pending(s: string): bool { s != "" && s[|s| - 1] == '\\' && !Pending(s[..|s| - 1]) }

  lemma PendingNext(s: string, c: char)
    ensures Pending(s + [c]) <==> c == '\\' && !Pending(s)
  {
    assert (s + [c])[..|s|] == s;
  }

  lemma {:induction false} PendingTail(s: string, b: string)
    requires |s| >= 1 && !Pending(s)
    ensures Pending(s + b) == Pending(b)
  {
    if b == "" {
      assert s + b == s;
    } else {
      var init, c := b[..|b| - 1], b[|b| - 1];
      assert s + b == (s + init) + [c] && b == init + [c];
      PendingTail(s, init);
      PendingNext(s + init, c);
      PendingNext(init, c);
    }
  }

  lemma LoneBackslash(a: string)
    requires a != "" && a[0] == '\\' && !Pending(a)
    ensures |a| > 1
  {
  }

  lemma {:induction false} UnescapeConcat(a: string, b: string)
    requires !Pending(a)
    ensures Unescape(a + b) == Unescape(a) + Unescape(b)
    decreases |a|
  {
    if a == "" {
      assert a + b == b;
    } else if a[0] == '\\' {
      LoneBackslash(a);
      assert (a + b)[2..] == a[2..] + b && a == a[..2] + a[2..];
      assert a[..2] == ("" + [a[0]]) + [a[1]];
      PendingNext("", a[0]);
      PendingNext("" + [a[0]], a[1]);
      PendingTail(a[..2], a[2..]);
      UnescapeConcat(a[2..], b);
    } else {
      assert (a + b)[1..] == a[1..] + b && a == [a[0]] + a[1..];
      PendingNext("", a[0]);
      assert "" + [a[0]] == [a[0]];
      PendingTail([a[0]], a[1..]);
      UnescapeConcat(a[1..], b);
    }
  }

  /** Reading back an escaped name gives the name. */
  lemma {:induction false} UnescapeEscape(s: string)
    ensures Unescape(EscapePath(s)) == s
  {
    if s != "" {
      UnescapeEscape(s[1..]);
      var e := EscapePath(s);
      if Special(s[0]) {
        assert e == ['\\', s[0]] + EscapePath(s[1..]) && e[2..] == EscapePath(s[1..]);
      } else {
        assert e == [s[0]] + EscapePath(s[1..]) && e[1..] == EscapePath(s[1..]);
      }
    }
  }

  // ----- accepting a suggestion -----

  /** Outside quotes and not in the middle of an escape. */
  predicate AtRest(s: Lex) { s.quote.None? && !s.esc }

  /** An escaped name without tabs only makes the token longer. */
  lemma {:induction false} EscapedStaysInToken(s: Lex, x: string)
    requires AtRest(s) && '\t' !in x
    ensures Scan(s, EscapePath(x)) == s.(cur := s.cur + EscapePath(x))
    decreases |x|
  {
    hide Escaped, Scan;
    if x == "" {
      assert Scan(s, "") == s by { ScanNothing(s); }
      assert s.cur + "" == s.cur;
    } else {
      var c, rest := x[0], EscapePath(x[1..]);
      var t := s.(cur := s.cur + Escaped(c));
      ScanConcat(s, Escaped(c), rest);
      assert c != '\t';
      EscapedChar(s, c);
      EscapedStaysInToken(t, x[1..]);
      assert (s.cur + Escaped(c)) + rest == s.cur + (Escaped(c) + rest);
    }
  }

  lemma ScanNothing(s: Lex)
    ensures Scan(s, "") == s
  {
  }

  lemma ScanTwo(s: Lex, a: char, b: char)
    ensures Scan(s, [a, b]) == Step(Step(s, a), b)
  {
    assert [a, b][1..] == [b];
    ScanLast(Step(s, a), "", b);
    ScanNothing(Step(s, a));
    assert "" + [b] == [b];
  }

  lemma EscapedChar(s: Lex, c: char)
    requires AtRest(s) && c != '\t'
    ensures Scan(s, Escaped(c)) == s.(cur := s.cur + Escaped(c))
  {
    if Special(c) {
      ScanTwo(s, '\\', c);
      assert (s.cur + ['\\']) + [c] == s.cur + ['\\', c];
    } else {
      assert [c][1..] == "";
    }
  }

  lemma {:induction false} CurGrowsAtMost(s: Lex, x: string)
    ensures |Scan(s, x).cur| <= |s.cur| + |x|
    decreases |x|
  {
    if x != "" { CurGrowsAtMost(Step(s, x[0]), x[1..]); }
  }

  lemma {:induction false} EscapeConcat(a: string, b: string)
    ensures EscapePath(a + b) == EscapePath(a) + EscapePath(b)
  {
    if a == "" {
      assert a + b == b;
    } else {
      assert (a + b)[1..] == a[1..] + b;
      EscapeConcat(a[1..], b);
    }
  }

  lemma {:induction false} FirstTab(x: string) returns (i: nat)
    requires '\t' in x
    ensures i < |x| && x[i] == '\t' && '\t' !in x[..i]
  {
    if x[0] == '\t' {
      i := 0;
    } else {
      var k := FirstTab(x[1..]);
      i := k + 1;
      assert x[..i] == [x[0]] + x[1..][..k];
    }
  }

  /** A tab is not escaped: it always ends the token. */
  lemma TabBreaksToken(s: Lex, x: string)
    requires AtRest(s) && '\t' in x
    ensures |Scan(s, EscapePath(x)).cur| < |s.cur + EscapePath(x)|
  {
    var i := FirstTab(x);
    var a, b := x[..i], x[i + 1..];
    assert x == (a + ['\t']) + b;
    EscapeConcat(a + ['\t'], b);
    EscapeConcat(a, ['\t']);
    assert ['\t'][1..] == "" && EscapePath(['\t']) == ['\t'] + "";
    ScanConcat(s, EscapePath(a) + ['\t'], EscapePath(b));
    EscapedStaysInToken(s, a);
    ScanLast(s, EscapePath(a), '\t');
    CurGrowsAtMost(Step(Scan(s, EscapePath(a)), '\t'), EscapePath(b));
    assert EscapePath(x) == (EscapePath(a) + ['\t']) + EscapePath(b);
    assert Step(Scan(s, EscapePath(a)), '\t').cur == "";
    hide Scan, EscapePath;
  }

  /** Typing an escaped name goes into the token as it stands exactly when the name has no tab. */
  lemma EscapedStaysExactly(s: Lex, x: string)
    requires AtRest(s)
    ensures Scan(s, EscapePath(x)) == s.(cur := s.cur + EscapePath(x)) <==> '\t' !in x
  {
    if '\t' in x { TabBreaksToken(s, x); } else { EscapedStaysInToken(s, x); }
  }

  // ----- path queries -----

  /** The part up to and with the last slash. */
  function DirPart(s: string): string {
    if s == "" then "" else if s[|s| - 1] == '/' then s else DirPart(s[..|s| - 1])
  }

  lemma {:induction false} DirPartIsPrefix(s: string)
    ensures DirPart(s) <= s && (DirPart(s) != "" ==> DirPart(s)[|DirPart(s)| - 1] == '/')
    ensures '/' !in s[|DirPart(s)|..]
  {
    if s != "" && s[|s| - 1] != '/' {
      DirPartIsPrefix(s[..|s| - 1]);
      assert s == s[..|s| - 1] + [s[|s| - 1]];
      assert s[|DirPart(s)|..] == s[..|s| - 1][|DirPart(s)|..] + [s[|s| - 1]];
    } else {
      assert s[|DirPart(s)|..] == "";
    }
  }

  function RestPart(s: string): string {
    DirPartIsPrefix(s);
    s[|DirPart(s)|..]
  }

  lemma {:induction false} SlashFreeTail(s: string, b: string)
    requires '/' !in b
    ensures DirPart(s + b) == DirPart(s)
  {
    if b == "" {
      assert s + b == s;
    } else {
      assert s + b == (s + b[..|b| - 1]) + [b[|b| - 1]];
      assert (s + b)[..|s + b| - 1] == s + b[..|b| - 1];
      SlashFreeTail(s, b[..|b| - 1]);
    }
  }

  datatype PathQuery = PathQuery(dir: string, prefix: string, dirsOnly: bool)

  function QueryFor(current: string, dirsOnly: bool): Option<PathQuery> {
    if current != "" && current[0] in "'\"-$" then None
    else if DirPart(current) == "" && Unescape(RestPart(current)) != "" &&
      Unescape(RestPart(current))[0] == '~' then None
    else Some(PathQuery(DirPart(current), Unescape(RestPart(current)), dirsOnly))
  }

  predicate StartsWith(s: string, c: char) { s != "" && s[0] == c }

  /** There is a path to list exactly for a token that does not start with a
      quote, a dash or a dollar sign, nor, without a slash, with a tilde. It is
      the token cut behind its last slash. */
  lemma QueryExactly(dir: string, rest: string, dirsOnly: bool)
    requires (dir == "" || dir[|dir| - 1] == '/') && '/' !in rest
    ensures QueryFor(dir + rest, dirsOnly) ==
      if StartsWith(dir + rest, '\'') || StartsWith(dir + rest, '"') || StartsWith(dir + rest, '-') ||
         StartsWith(dir + rest, '$') || (dir == "" && StartsWith(Unescape(rest), '~'))
      then None else Some(PathQuery(dir, Unescape(rest), dirsOnly))
  {
    SlashFreeTail(dir, rest);
    assert DirPart(dir) == dir;
    assert (dir + rest)[|dir|..] == rest;
  }

  datatype DirEntry = DirEntry(name: string, dir: bool)

  /** An entry that matches the query: the token so far is a proper prefix of its name. */
  predicate Offered(q: PathQuery, e: DirEntry) {
    (q.dirsOnly ==> e.dir) && q.prefix < e.name && ((q.prefix != "" && q.prefix[0] == '.') || e.name[0] != '.')
  }

  function Missing(q: PathQuery, e: DirEntry): string
    requires Offered(q, e)
  {
    e.name[|q.prefix|..]
  }

  /** What is typed when the suggestion for `e` is accepted. */
  function Insert(q: PathQuery, e: DirEntry): string
    requires Offered(q, e)
  {
    EscapePath(Missing(q, e)) + if e.dir then "/" else " "
  }

  /** Outside quotes, the scanner waits exactly when the token ends in an unpaired backslash. */
  predicate InStep(s: Lex) { s.quote.None? ==> (Pending(s.cur) <==> s.esc) }

  lemma {:induction false} ScanInStep(s: Lex, x: string)
    requires InStep(s) && (s.quote.Some? ==> !s.esc && s.quote.value in "'\"")
    ensures InStep(Scan(s, x))
    decreases |x|
  {
    if x != "" {
      PendingNext(s.cur, x[0]);
      ScanInStep(Step(s, x[0]), x[1..]);
    }
  }

  /** The last path segment of a token at rest is not cut in an escape. */
  lemma RestIsWhole(cur: string)
    requires !Pending(cur)
    ensures !Pending(RestPart(cur))
  {
    DirPartIsPrefix(cur);
    var dir, rest := DirPart(cur), RestPart(cur);
    assert cur == dir + rest;
    if dir != "" {
      assert dir == dir[..|dir| - 1] + ['/'];
      PendingNext(dir[..|dir| - 1], '/');
      PendingTail(dir, rest);
    } else {
      assert cur == rest;
    }
  }

  lemma {:induction false} EscapeIsNotEmpty(x: string)
    ensures EscapePath(x) == "" <==> x == ""
  {
    if x != "" { assert EscapePath(x) == Escaped(x[0]) + EscapePath(x[1..]); }
  }

  /** What typing a name's missing part and the final character does to the scanner. */
  lemma TypedIntoToken(s: Lex, missing: string, dir: bool)
    requires AtRest(s) && '\t' !in missing && missing != ""
    ensures
      var token := s.cur + EscapePath(missing);
      Scan(s, EscapePath(missing) + if dir then "/" else " ") ==
        if dir then s.(cur := token + "/") else Lex(s.words + [token], "", None, false)
  {
    var typed, last := EscapePath(missing), if dir then '/' else ' ';
    EscapedStaysInToken(s, missing);
    EscapeIsNotEmpty(missing);
    hide Scan, EscapePath;
    ScanLast(s, typed, last);
    assert typed + [last] == typed + if dir then "/" else " ";
  }

  /** The path a token names, once the missing part of an entry is typed. */
  lemma TypedPath(cur: string, name: string, missing: string)
    requires !Pending(cur) && '/' !in name && Unescape(RestPart(cur)) + missing == name
    ensures DirPart(cur + EscapePath(missing)) == DirPart(cur) && Unescape(RestPart(cur + EscapePath(missing))) == name
  {
    LastSegmentReads(cur, missing);
    forall k | 0 <= k < |missing|
      ensures missing[k] != '/'
    {
      assert name[|Unescape(RestPart(cur))| + k] == missing[k];
    }
    EscapeAddsNoSlash(missing);
    hide EscapePath, Unescape, Pending, DirPart;
    SlashFreeTail(cur, EscapePath(missing));
    DirPartIsPrefix(cur);
    assert RestPart(cur + EscapePath(missing)) == RestPart(cur) + EscapePath(missing);
  }

  /** Accepting a path suggestion on a token outside quotes and without a
      dangling backslash: a directory leaves the cursor in the same token, a
      file finishes it as one word, and either way the unescaped last path
      segment is exactly the entry's name. */
  lemma AcceptKeepsOneToken(segment: string, dirsOnly: bool, e: DirEntry)
    requires AtRest(Scan(START, segment)) && QueryFor(Scan(START, segment).cur, dirsOnly).Some?
    requires Offered(QueryFor(Scan(START, segment).cur, dirsOnly).value, e) && '/' !in e.name
    requires '\t' !in Missing(QueryFor(Scan(START, segment).cur, dirsOnly).value, e)
    ensures
      var s, q := Scan(START, segment), QueryFor(Scan(START, segment).cur, dirsOnly).value;
      var token := s.cur + EscapePath(Missing(q, e));
      && Scan(START, segment + Insert(q, e)) ==
           (if e.dir then s.(cur := token + "/") else Lex(s.words + [token], "", None, false))
      && DirPart(token) == q.dir && Unescape(RestPart(token)) == e.name
  {
    hide Scan, EscapePath, Unescape, Pending, DirPart, RestPart;
    var s := Scan(START, segment);
    var q := QueryFor(s.cur, dirsOnly).value;
    var missing := Missing(q, e);
    assert missing != "" && q.prefix + missing == e.name;
    ScanConcat(START, segment, Insert(q, e));
    TypedIntoToken(s, missing, e.dir);
    assert !Pending(s.cur) by {
      assert Pending("") == false by { NothingPending(); }
      ScanInStep(START, segment);
    }
    TypedPath(s.cur, e.name, missing);
  }

  lemma NothingPending()
    ensures !Pending("")
  {
  }

  lemma LastSegmentReads(cur: string, missing: string)
    requires !Pending(cur)
    ensures Unescape(RestPart(cur) + EscapePath(missing)) == Unescape(RestPart(cur)) + missing
  {
    RestIsWhole(cur);
    UnescapeConcat(RestPart(cur), EscapePath(missing));
    UnescapeEscape(missing);
  }

  lemma {:induction false} EscapeAddsNoSlash(x: string)
    requires '/' !in x
    ensures '/' !in EscapePath(x)
  {
    if x != "" { EscapeAddsNoSlash(x[1..]); }
  }

  // ----- the segment the token is in -----

  predicate Splits(c: char) { c == '|' || c == '&' || c == ';' }

  /** Where the last simple command starts, reading on from `i` with `start` found so far. */
  function SegmentStart(line: string, i: nat, start: nat): nat
    requires i <= |line|
    decreases |line| - i
  {
    if i == |line| then start
    else if line[i] == '|' || line[i] == '&' then
      var j := if i + 1 < |line| && line[i + 1] == line[i] then i + 2 else i + 1;
      SegmentStart(line, j, j)
    else if line[i] == ';' then SegmentStart(line, i + 1, i + 1)
    else SegmentStart(line, i + 1, start)
  }

  lemma {:induction false} SegmentStartInside(line: string, i: nat, start: nat)
    requires start <= i <= |line|
    ensures start <= SegmentStart(line, i, start) <= |line|
    ensures SegmentStart(line, i, start) != start ==> SegmentStart(line, i, start) > i
    decreases |line| - i
  {
    if i < |line| {
      if line[i] == '|' || line[i] == '&' {
        var j := if i + 1 < |line| && line[i + 1] == line[i] then i + 2 else i + 1;
        SegmentStartInside(line, j, j);
      } else if line[i] == ';' {
        SegmentStartInside(line, i + 1, i + 1);
      } else {
        SegmentStartInside(line, i + 1, start);
      }
    }
  }

  /** The segment has no separator and starts behind one, or at the start of the line. */
  lemma {:induction false} SegmentIsLast(line: string, i: nat, start: nat)
    requires start <= i <= |line| && forall k :: start <= k < i ==> !Splits(line[k])
    ensures
      var at := SegmentStart(line, i, start);
      && start <= at <= |line| && (at == start || Splits(line[at - 1]))
      && forall k :: at <= k < |line| ==> !Splits(line[k])
    decreases |line| - i
  {
    if i < |line| {
      if line[i] == '|' || line[i] == '&' {
        var j := if i + 1 < |line| && line[i + 1] == line[i] then i + 2 else i + 1;
        SegmentIsLast(line, j, j);
      } else if line[i] == ';' {
        SegmentIsLast(line, i + 1, i + 1);
      } else {
        SegmentIsLast(line, i + 1, start);
      }
    }
  }

  /** What follows the last separator: the command being typed now. Quotes and
      backslashes do not protect a separator here. */
  method LastSegment(line: string) returns (segment: string)
    ensures SegmentStart(line, 0, 0) <= |line| && segment == line[SegmentStart(line, 0, 0)..]
    ensures NoSplit(segment) && |segment| <= |line| && segment == line[|line| - |segment|..]
    ensures |segment| < |line| ==> Splits(line[|line| - |segment| - 1])
  {
    SegmentIsLast(line, 0, 0);
    SegmentStartInside(line, 0, 0);
    var start, i := 0, 0;
    while i < |line|
      invariant start <= i <= |line| && SegmentStart(line, i, start) == SegmentStart(line, 0, 0)
    {
      if line[i] == '|' || line[i] == '&' {
        i := i + 1;
        if i < |line| && line[i] == line[i - 1] { i := i + 1; }
        start := i;
      } else if line[i] == ';' {
        i := i + 1;
        start := i;
      } else {
        i := i + 1;
      }
    }
    segment := line[start..];
  }

  predicate NoSplit(x: string) { forall k :: 0 <= k < |x| ==> !Splits(x[k]) }

  lemma {:induction false} SegmentStartExtends(line: string, x: string, i: nat, start: nat)
    requires start <= i <= |line| && (x != "" ==> !(x[0] == '|' || x[0] == '&'))
    ensures SegmentStart(line + x, i, start) == SegmentStart(line + x, |line|, SegmentStart(line, i, start))
    decreases |line| - i
  {
    SegmentStartInside(line, i, start);
    if i < |line| {
      assert (line + x)[i] == line[i];
      if line[i] == '|' || line[i] == '&' {
        var j := if i + 1 < |line| && line[i + 1] == line[i] then i + 2 else i + 1;
        SegmentStartExtends(line, x, j, j);
      } else if line[i] == ';' {
        SegmentStartExtends(line, x, i + 1, i + 1);
      } else {
        SegmentStartExtends(line, x, i + 1, start);
      }
    }
  }

  lemma {:induction false} PlainTextKeepsStart(line: string, i: nat, start: nat)
    requires start <= i <= |line|
    ensures SegmentStart(line, i, start) == start <==> forall k :: i <= k < |line| ==> !Splits(line[k])
    decreases |line| - i
  {
    if i < |line| {
      if Splits(line[i]) {
        var j := if line[i] != ';' && i + 1 < |line| && line[i + 1] == line[i] then i + 2 else i + 1;
        SegmentStartInside(line, j, j);
      } else {
        PlainTextKeepsStart(line, i + 1, start);
      }
    }
  }

  lemma {:induction false} EscapeKeepsSplits(x: string)
    ensures NoSplit(EscapePath(x)) <==> NoSplit(x)
    ensures EscapePath(x) != "" ==> !Splits(EscapePath(x)[0])
  {
    if x != "" {
      EscapeKeepsSplits(x[1..]);
      var e, rest := Escaped(x[0]), EscapePath(x[1..]);
      assert EscapePath(x) == e + rest;
      assert NoSplit(e + rest) <==> NoSplit(e) && NoSplit(rest) by { NoSplitConcat(e, rest); }
      assert NoSplit(x) <==> !Splits(x[0]) && NoSplit(x[1..]) by {
        assert x == [x[0]] + x[1..];
        NoSplitConcat([x[0]], x[1..]);
        assert NoSplit([x[0]]) <==> !Splits([x[0]][0]);
      }
      assert NoSplit(e) <==> !Splits(x[0]) by { assert e[|e| - 1] == x[0] && Splits(x[0]) ==> Special(x[0]); }
    }
  }

  lemma NoSplitConcat(a: string, b: string)
    ensures NoSplit(a + b) <==> NoSplit(a) && NoSplit(b)
  {
    if NoSplit(a + b) {
      forall k | 0 <= k < |a| ensures !Splits(a[k]) { assert (a + b)[k] == a[k]; }
      forall k | 0 <= k < |b| ensures !Splits(b[k]) { assert (a + b)[|a| + k] == b[k]; }
    }
  }

  /** Looked at again, the completed line still has its token in the same
      command exactly when the typed part of the name has none of `|`, `&` and
      `;`: the splitter does not see that they are escaped. */
  lemma AcceptStaysInSegmentExactly(line: string, q: PathQuery, e: DirEntry)
    requires Offered(q, e)
    ensures SegmentStart(line + Insert(q, e), 0, 0) == SegmentStart(line, 0, 0) <==> NoSplit(Missing(q, e))
  {
    var x := Insert(q, e);
    var start := SegmentStart(line, 0, 0);
    EscapeKeepsSplits(Missing(q, e));
    NoSplitConcat(EscapePath(Missing(q, e)), if e.dir then "/" else " ");
    assert EscapePath(Missing(q, e)) != "" && x[0] == EscapePath(Missing(q, e))[0];
    SegmentStartInside(line, 0, 0);
    SegmentStartExtends(line, x, 0, 0);
    PlainTextKeepsStart(line + x, |line|, start);
    assert NoSplit(x) <==> forall k :: |line| <= k < |line + x| ==> !Splits((line + x)[k]) by {
      if NoSplit(x) { assert forall k :: |line| <= k < |line + x| ==> (line + x)[k] == x[k - |line|]; }
      if forall k :: |line| <= k < |line + x| ==> !Splits((line + x)[k]) {
        forall k | 0 <= k < |x| ensures !Splits(x[k]) { assert (line + x)[|line| + k] == x[k]; }
      }
    }
  }

  // ----- quoting for a remote shell -----

  /** `'` becomes `'\''`. */
  function QuoteBody(s: string): string {
    if s == "" then "" else (if s[0] == '\'' then "'\\''" else [s[0]]) + QuoteBody(s[1..])
  }

  function ShellQuote(s: string): string { "'" + QuoteBody(s) + "'" }

  /** How a POSIX shell reads one word made of single-quoted parts, escaped
      characters and ordinary ones (IEEE Std 1003.1, Shell Command Language,
      sections 2.2.1 and 2.2.2); `None` if it is not one word of that kind. */
  function ReadWord(s: string, inQuotes: bool): Option<string> {
    if s == "" then if inQuotes then None else Some("")
    else if inQuotes then
      if s[0] == '\'' then ReadWord(s[1..], false)
      else match ReadWord(s[1..], true) case Some(w) => Some([s[0]] + w) case None => None
    else if s[0] == '\'' then ReadWord(s[1..], true)
    else if s[0] == '\\' then
      if |s| == 1 then None
      else if s[1] == '\n' then ReadWord(s[2..], false)
      else match ReadWord(s[2..], false) case Some(w) => Some([s[1]] + w) case None => None
    else if s[0] in " \t\n|&;<>()$`\"*?[#~=%!{}" then None
    else match ReadWord(s[1..], false) case Some(w) => Some([s[0]] + w) case None => None
  }

  lemma {:induction false} QuotedBodyReads(s: string)
    ensures ReadWord(QuoteBody(s) + "'", true) == Some(s)
  {
    var t := QuoteBody(s) + "'";
    if s == "" {
      assert t == "'" && t[1..] == "";
    } else {
      QuotedBodyReads(s[1..]);
      var rest := QuoteBody(s[1..]) + "'";
      if s[0] == '\'' {
        assert t == "'\\''" + rest;
        assert t[1..] == "\\''" + rest;
        assert t[1..][2..] == "'" + rest;
        assert ("'" + rest)[1..] == rest;
        assert ReadWord("'" + rest, false) == Some(s[1..]);
        assert ReadWord(t[1..], false) == Some([s[0]] + s[1..]);
      } else {
        assert t == [s[0]] + rest && t[1..] == rest;
      }
      assert [s[0]] + s[1..] == s;
    }
  }

  /** A POSIX shell reads the quoted form of any text as one word: that text. */
  lemma ShellQuoteReadsBack(s: string)
    ensures ReadWord(ShellQuote(s), false) == Some(s)
  {
    assert ShellQuote(s)[1..] == QuoteBody(s) + "'";
    QuotedBodyReads(s);
  }
}
