/** Snippet placeholders: the two scanners of the snippet library follow one
    split of the script into literal text and holes. */
module SnippetText {
  import opened Wrappers
  import opened Text

  predicate PairAt(s: string, c: char, k: nat) { k + 1 < |s| && s[k] == c && s[k + 1] == c }

  /** First place where `c` stands twice in a row. */
  function FindPair(s: string, c: char): (r: Option<nat>)
    ensures r.Some? ==> PairAt(s, c, r.value)
  {
    if |s| < 2 then None
    else if s[0] == c && s[1] == c then Some(0)
    else match FindPair(s[1..], c) case None => None case Some(i) => Some(i + 1)
  }

  lemma {:induction false} FindPairIsFirst(s: string, c: char, k: nat)
    requires PairAt(s, c, k)
    ensures FindPair(s, c).Some? && FindPair(s, c).value <= k
  {
    if !PairAt(s, c, 0) { FindPairIsFirst(s[1..], c, k - 1); }
  }

  /** The first closed pair of braces: the text before, what is inside, the text after. */
  function Cut(script: string): (r: Option<(string, string, string)>)
    ensures r.Some? ==> |r.value.2| < |script|
  {
    match FindPair(script, '{')
    case None => None
    case Some(start) =>
      var after := script[start + 2..];
      match FindPair(after, '}')
      case None => None
      case Some(end) => Some((script[..start], after[..end], after[end + 2..]))
  }

  lemma AroundPair(s: string, c: char, k: nat)
    requires PairAt(s, c, k)
    ensures s == s[..k] + [c, c] + s[k + 2..]
  {
  }

  lemma CutLosesNothing(script: string)
    requires Cut(script).Some?
    ensures var (text, raw, rest) := Cut(script).value; script == text + ("{{" + raw + "}}") + rest
  {
    var start := FindPair(script, '{').value;
    var after := script[start + 2..];
    var end := FindPair(after, '}').value;
    AroundPair(script, '{', start);
    AroundPair(after, '}', end);
    assert ['{', '{'] == "{{" && ['}', '}'] == "}}";
    hide FindPair, PairAt;
    Glue(script[..start], after[..end], after[end + 2..]);
  }

  lemma Glue(text: string, raw: string, rest: string)
    ensures text + "{{" + (raw + "}}" + rest) == text + ("{{" + raw + "}}") + rest
  {
  }

  datatype Part = Lit(text: string) | Hole(raw: string)

  /** The one split of a script: text up to `{{`, what stands before the next
      `}}`, and so on; text without a closed pair of braces is literal. */
  function Parts(script: string): seq<Part>
    decreases |script|
  {
    match Cut(script)
    case None => [Lit(script)]
    case Some((text, raw, rest)) => [Lit(text), Hole(raw)] + Parts(rest)
  }

  function RenderPart(p: Part): string {
    match p case Lit(t) => t case Hole(raw) => "{{" + raw + "}}"
  }

  function Render(parts: seq<Part>): string {
    if parts == [] then "" else RenderPart(parts[0]) + Render(parts[1..])
  }

  lemma {:induction false} RenderConcat(a: seq<Part>, b: seq<Part>)
    ensures Render(a + b) == Render(a) + Render(b)
  {
    if a == [] {
      assert a + b == b;
    } else {
      assert (a + b)[1..] == a[1..] + b;
      RenderConcat(a[1..], b);
    }
  }

  /** The split loses nothing. */
  lemma {:induction false} PartsRenderBack(script: string)
    ensures Render(Parts(script)) == script
    decreases |script|
  {
    hide Cut, Render;
    if Cut(script).None? {
      RenderOne(Lit(script));
    } else {
      var (text, raw, rest) := Cut(script).value;
      PartsRenderBack(rest);
      RenderConcat([Lit(text), Hole(raw)], Parts(rest));
      RenderTwo(Lit(text), Hole(raw));
      CutLosesNothing(script);
    }
  }

  lemma RenderOne(p: Part)
    ensures Render([p]) == RenderPart(p)
  {
    assert [p][1..] == [] && RenderPart(p) + "" == RenderPart(p);
  }

  lemma RenderTwo(p: Part, q: Part)
    ensures Render([p, q]) == RenderPart(p) + RenderPart(q)
  {
    assert [p, q][1..] == [q];
    RenderOne(q);
  }

  // ----- variables -----

  predicate ValidName(name: string) { name != "" && '{' !in name && '}' !in name && '\n' !in name }

  predicate NamesVariable(p: Part, name: string) { p.Hole? && Trim(p.raw) == name && ValidName(name) }

  /** The variables of a split, each where it first appears. */
  function Names(parts: seq<Part>): seq<string> {
    if parts == [] then []
    else
      var before, p := Names(parts[..|parts| - 1]), parts[|parts| - 1];
      if p.Hole? && ValidName(Trim(p.raw)) && Trim(p.raw) !in before then before + [Trim(p.raw)] else before
  }

  /** The first part that names a variable. */
  function FirstUse(parts: seq<Part>, name: string): nat {
    if parts == [] || NamesVariable(parts[0], name) then 0 else 1 + FirstUse(parts[1..], name)
  }

  lemma {:induction false} FirstUseOfPrefix(parts: seq<Part>, n: nat, name: string)
    requires n <= |parts|
    ensures FirstUse(parts, name) <= |parts|
    ensures (exists k :: 0 <= k < n && NamesVariable(parts[k], name)) <==> FirstUse(parts, name) < n
    ensures FirstUse(parts, name) < n ==> FirstUse(parts[..n], name) == FirstUse(parts, name)
  {
    if n == 0 {
      FirstUseInside(parts, name);
    } else if !NamesVariable(parts[0], name) {
      FirstUseOfPrefix(parts[1..], n - 1, name);
      assert parts[..n][1..] == parts[1..][..n - 1];
      assert forall k :: 1 <= k < n ==> parts[k] == parts[1..][k - 1];
      if k :| 0 <= k < n - 1 && NamesVariable(parts[1..][k], name) { assert NamesVariable(parts[k + 1], name); }
    }
  }

  lemma {:induction false} FirstUseInside(parts: seq<Part>, name: string)
    ensures FirstUse(parts, name) <= |parts|
  {
    if parts != [] && !NamesVariable(parts[0], name) { FirstUseInside(parts[1..], name); }
  }

  ghost predicate HasUse(parts: seq<Part>, name: string) {
    exists k: nat :: k < |parts| && NamesVariable(parts[k], name)
  }

  lemma UseInLonger(parts: seq<Part>, name: string)
    requires parts != []
    ensures HasUse(parts, name) <==> HasUse(parts[..|parts| - 1], name) || NamesVariable(parts[|parts| - 1], name)
  {
    var init := parts[..|parts| - 1];
    if k: nat :| k < |init| && NamesVariable(init[k], name) { assert NamesVariable(parts[k], name); }
    if k: nat :| k < |parts| && NamesVariable(parts[k], name) { assert k < |init| ==> NamesVariable(init[k], name); }
  }

  lemma FirstUseInLonger(parts: seq<Part>, name: string)
    requires parts != []
    ensures if HasUse(parts[..|parts| - 1], name) then
        FirstUse(parts, name) == FirstUse(parts[..|parts| - 1], name) < |parts| - 1
            else FirstUse(parts, name) >= |parts| - 1
  {
    var n := |parts| - 1;
    assert forall k :: 0 <= k < n ==> parts[k] == parts[..n][k];
    FirstUseOfPrefix(parts, n, name);
  }

  predicate InUseOrder(parts: seq<Part>, names: seq<string>) {
    forall i, j :: 0 <= i < j < |names| ==> FirstUse(parts, names[i]) < FirstUse(parts, names[j])
  }

  /** The list holds exactly the valid hole names, each once, in the order of their first use. */
  lemma {:induction false} NamesAreFirstUses(parts: seq<Part>)
    ensures forall name :: name in Names(parts) <==> HasUse(parts, name)
    ensures InUseOrder(parts, Names(parts))
  {
    if parts != [] {
      var n := |parts| - 1;
      var init, p, before := parts[..n], parts[n], Names(parts[..n]);
      NamesAreFirstUses(init);
      forall name ensures name in Names(parts) <==> HasUse(parts, name) { UseInLonger(parts, name); }
      forall i, j | 0 <= i < j < |Names(parts)|
        ensures FirstUse(parts, Names(parts)[i]) < FirstUse(parts, Names(parts)[j])
      {
        assert before[i] in before;
        FirstUseInLonger(parts, Names(parts)[i]);
        FirstUseInLonger(parts, Names(parts)[j]);
        if j < |before| { assert before[j] in before; }
      }
    }
  }

  lemma NamesOneMore(done: seq<Part>, t: string, raw: string)
    ensures Names(done + [Lit(t), Hole(raw)]) ==
      if ValidName(Trim(raw)) && Trim(raw) !in Names(done) then Names(done) + [Trim(raw)] else Names(done)
  {
    NamesOfLit(done, t);
    var all := done + [Lit(t), Hole(raw)];
    assert all[..|all| - 1] == done + [Lit(t)];
  }

  lemma NamesOfLit(done: seq<Part>, t: string)
    ensures Names(done + [Lit(t)]) == Names(done)
  {
    assert (done + [Lit(t)])[..|done|] == done;
  }

  /** Find the next hole, as both scanners do. */
  method NextHole(rest: string) returns (found: bool, text: string, raw: string, written: string, tail: string)
    ensures found <==> Cut(rest).Some?
    ensures found ==> Cut(rest).value == (text, raw, tail) && written == "{{" + raw + "}}"
  {
    hide PairAt;
    found, text, raw, written, tail := false, "", "", "", "";
    var start := FindPair(rest, '{');
    if start.None? { return; }
    PairInside(rest, '{', start.value);
    var after := rest[start.value + 2..];
    var end := FindPair(after, '}');
    if end.None? { return; }
    PairInside(after, '}', end.value);
    HoleText(rest, start.value, end.value);
    found, text, raw := true, rest[..start.value], after[..end.value];
    written, tail := rest[start.value..start.value + 2 + end.value + 2], after[end.value + 2..];
  }

  lemma PairInside(s: string, c: char, k: nat)
    requires PairAt(s, c, k)
    ensures k + 2 <= |s|
  {
  }

  lemma HoleText(rest: string, start: nat, end: nat)
    requires PairAt(rest, '{', start) && PairAt(rest[start + 2..], '}', end)
    ensures rest[start..start + 2 + end + 2] == "{{" + rest[start + 2..][..end] + "}}"
  {
    var after := rest[start + 2..];
    assert rest[start..start + 2] == "{{" && after[end..end + 2] == "}}";
    assert rest[start..start + 2 + end + 2] == rest[start..start + 2] + after[..end] + after[end..end + 2];
  }

  /** The valid hole names of a script, each where it first occurs. */
  method Variables(script: string) returns (out: seq<string>)
    ensures out == Names(Parts(script))
  {
    hide Names, ValidName, Trim, Cut;
    out := [];
    var rest := script;
    ghost var done: seq<Part> := [];
    assert Names([]) == [] by { NoNames(); }
    assert [] + Parts(script) == Parts(script);
    while true
      invariant Parts(script) == done + Parts(rest) && out == Names(done)
      decreases |rest|
    {
      var found, text, raw, written, tail := NextHole(rest);
      if !found { break; }
      var name := Trim(raw);
      NamesOneMore(done, text, raw);
      if ValidName(name) && name !in out { out := out + [name]; }
      MoreDone(done, [Lit(text), Hole(raw)], Parts(tail));
      done := done + [Lit(text), Hole(raw)];
      rest := tail;
    }
    assert Parts(rest) == [Lit(rest)];
    NamesOfLit(done, rest);
  }

  lemma MoreDone(a: seq<Part>, b: seq<Part>, c: seq<Part>)
    ensures a + (b + c) == (a + b) + c
  {
  }

  lemma NoNames()
    ensures Names([]) == []
  {
  }

  // ----- substitution -----

  function ExpandPart(p: Part, vars: map<string, string>): string {
    match p
    case Lit(t) => t
    case Hole(raw) => if ValidName(Trim(raw)) && Trim(raw) in vars then vars[Trim(raw)] else RenderPart(p)
  }

  /** One pass over the split: values are put in as they are and never looked into. */
  function Substitute(parts: seq<Part>, vars: map<string, string>): string {
    if parts == [] then "" else Substitute(parts[..|parts| - 1], vars) + ExpandPart(parts[|parts| - 1], vars)
  }

  lemma SubstituteLast(parts: seq<Part>, p: Part, vars: map<string, string>)
    ensures Substitute(parts + [p], vars) == Substitute(parts, vars) + ExpandPart(p, vars)
  {
    assert (parts + [p])[..|parts|] == parts;
  }

  lemma SubstituteTwo(done: seq<Part>, t: string, raw: string, vars: map<string, string>)
    ensures Substitute(done + [Lit(t), Hole(raw)], vars) == Substitute(done, vars) + t + ExpandPart(Hole(raw), vars)
  {
    SubstituteLast(done, Lit(t), vars);
    SubstituteLast(done + [Lit(t)], Hole(raw), vars);
    assert done + [Lit(t), Hole(raw)] == (done + [Lit(t)]) + [Hole(raw)];
  }

  predicate AllSupplied(script: string, vars: map<string, string>) {
    forall n :: n in Names(Parts(script)) ==> n in vars
  }

  /** What a hole becomes, looked up the way the program does it. */
  lemma HoleLookup(parts: seq<Part>, k: nat, names: seq<string>)
    requires k < |parts| && parts[k].Hole? && names == Names(parts)
    ensures Trim(parts[k].raw) in names <==> ValidName(Trim(parts[k].raw))
  {
    NamesAreFirstUses(parts);
    var name := Trim(parts[k].raw);
    if ValidName(name) { assert NamesVariable(parts[k], name) && HasUse(parts, name); }
  }

  /** Succeeds exactly when every variable is supplied; the result is the single-pass substitution. */
  method Expand(script: string, vars: map<string, string>) returns (r: Result<string, seq<string>>)
    ensures r.Ok? <==> AllSupplied(script, vars)
    ensures r.Ok? ==> r.value == Expansion(script, vars)
    ensures r.Err? ==> forall n :: n in r.error <==> n in Names(Parts(script)) && n !in vars
  {
    var names := Variables(script);
    var missing := MissingNames(names, vars);
    if missing != [] {
      assert missing[0] in missing;
      return Err(missing);
    }
    assert AllSupplied(script, vars);
    hide Names, Substitute, AllSupplied, Trim, ValidName, Cut, HoleValue;
    var out, rest := "", script;
    ghost var done: seq<Part> := [];
    assert Substitute([], vars) == "" by { NothingToSubstitute(vars); }
    assert [] + Parts(script) == Parts(script);
    while true
      invariant Parts(script) == done + Parts(rest) && out == Substitute(done, vars)
      decreases |rest|
    {
      var found, text, raw, written, tail := NextHole(rest);
      if !found { break; }
      MoreDone(done, [Lit(text), Hole(raw)], Parts(tail));
      OneMoreExpanded(Parts(script), done, text, raw, Parts(tail), names, vars);
      out := out + text + HoleValue(names, vars, raw, written);
      done := done + [Lit(text), Hole(raw)];
      rest := tail;
    }
    assert Parts(rest) == [Lit(rest)];
    SubstituteLast(done, Lit(rest), vars);
    out := out + rest;
    r := Ok(out);
  }

  /** The value of a variable, or the hole as it is written. */
  function HoleValue(names: seq<string>, vars: map<string, string>, raw: string, written: string): string {
    if Trim(raw) in vars && Trim(raw) in names then vars[Trim(raw)] else written
  }

  lemma OneMoreExpanded(
    all: seq<Part>, done: seq<Part>, text: string, raw: string, more: seq<Part>, names: seq<string>,
      vars: map<string, string>)
    requires all == (done + [Lit(text), Hole(raw)]) + more && names == Names(all)
    ensures Substitute(done + [Lit(text), Hole(raw)], vars) ==
              Substitute(done, vars) + text + HoleValue(names, vars, raw, "{{" + raw + "}}")
  {
    assert all[|done| + 1] == Hole(raw);
    HoleLookup(all, |done| + 1, names);
    SubstituteTwo(done, text, raw, vars);
    hide Names, Substitute, Trim, ValidName;
  }

  lemma NothingToSubstitute(vars: map<string, string>)
    ensures Substitute([], vars) == ""
  {
  }

  method MissingNames(names: seq<string>, vars: map<string, string>) returns (missing: seq<string>)
    ensures forall n :: n in missing <==> n in names && n !in vars
    ensures missing == [] <==> forall n :: n in names ==> n in vars
  {
    missing := [];
    for i := 0 to |names|
      invariant forall n :: n in missing <==> n in names[..i] && n !in vars
    {
      assert names[..i + 1] == names[..i] + [names[i]];
      if names[i] !in vars { missing := missing + [names[i]]; }
    }
    assert names[..|names|] == names;
    if missing == [] {
      forall n | n in names ensures n in vars { assert n !in missing; }
    } else {
      assert missing[0] in missing;
    }
  }

  lemma {:induction false} RenderFromLast(parts: seq<Part>)
    requires parts != []
    ensures Render(parts) == Render(parts[..|parts| - 1]) + RenderPart(parts[|parts| - 1])
  {
    var n := |parts| - 1;
    assert parts == parts[..n] + [parts[n]];
    RenderConcat(parts[..n], [parts[n]]);
    RenderOne(parts[n]);
  }

  /** Where no hole names a variable the parts render as they were. */
  lemma {:induction false} NoVariablesNoChange(parts: seq<Part>, vars: map<string, string>)
    requires forall name :: !HasUse(parts, name)
    ensures Substitute(parts, vars) == Render(parts)
  {
    if parts != [] {
      var n := |parts| - 1;
      forall name ensures !HasUse(parts[..n], name) && !NamesVariable(parts[n], name) { UseInLonger(parts, name); }
      NoVariablesNoChange(parts[..n], vars);
      RenderFromLast(parts);
      if parts[n].Hole? { assert !NamesVariable(parts[n], Trim(parts[n].raw)); }
    }
  }

  /** A script without variables expands to itself. */
  lemma PlainScriptExpandsToItself(script: string, vars: map<string, string>)
    requires Names(Parts(script)) == []
    ensures Expansion(script, vars) == script
  {
    NamesAreFirstUses(Parts(script));
    assert Expansion(script, vars) == Substitute(Parts(script), vars);
    hide Names, HasUse, Parts, Substitute, Render;
    assert forall name :: HasUse(Parts(script), name) ==> name in Names(Parts(script));
    NoVariablesNoChange(Parts(script), vars);
    PartsRenderBack(script);
  }

  // ----- what an expansion is, hole by hole -----

  /** The script with every variable replaced by its value. */
  function Expansion(script: string, vars: map<string, string>): string { Substitute(Parts(script), vars) }

  ghost predicate NoPair(s: string, c: char) { forall k: nat :: !PairAt(s, c, k) }

  predicate EndsIn(s: string, c: char) { s != "" && s[|s| - 1] == c }

  /** Text in front of a hole: no braces open in it. */
  ghost predicate BeforeHole(text: string) { NoPair(text, '{') && !EndsIn(text, '{') }

  /** What can stand in a hole: no braces close in it. */
  ghost predicate InsideHole(raw: string) { NoPair(raw, '}') && !EndsIn(raw, '}') }

  lemma FirstPair(before: string, c: char, rest: string)
    requires NoPair(before, c) && !EndsIn(before, c)
    ensures FindPair(before + [c, c] + rest, c) == Some(|before|)
  {
    var s, k := before + [c, c] + rest, |before|;
    assert PairAt(s, c, k);
    FindPairIsFirst(s, c, k);
    hide PairAt, NoPair, EndsIn, FindPair;
    var i := FindPair(s, c).value;
    if i < k { PairSooner(before, c, rest, i); }
  }

  lemma PairSooner(before: string, c: char, rest: string, i: nat)
    requires PairAt(before + [c, c] + rest, c, i) && i < |before|
    ensures !NoPair(before, c) || EndsIn(before, c)
  {
    if i + 1 < |before| { assert PairAt(before, c, i); }
  }

  lemma NoneBeforeFirst(s: string, c: char)
    requires FindPair(s, c).Some?
    ensures var before := s[..FindPair(s, c).value]; NoPair(before, c) && !EndsIn(before, c)
  {
    var k := FindPair(s, c).value;
    var before := s[..k];
    forall i: nat
      ensures !PairAt(before, c, i)
    {
      if PairAt(before, c, i) {
        assert PairAt(s, c, i);
        FindPairIsFirst(s, c, i);
      }
    }
    if EndsIn(before, c) {
      var i := k - 1;
      assert PairAt(s, c, i);
      FindPairIsFirst(s, c, i);
    }
  }

  /** The split is at the first hole, which is text without open braces, `{{`,
      text without closed ones, and the next `}}`. */
  lemma CutExactly(script: string, text: string, raw: string, rest: string)
    ensures Cut(script) == Some((text, raw, rest)) <==>
      BeforeHole(text) && InsideHole(raw) && script == text + "{{" + raw + "}}" + rest
  {
    if BeforeHole(text) && InsideHole(raw) && script == text + "{{" + raw + "}}" + rest { HoleIsCut(text, raw, rest); }
    if Cut(script) == Some((text, raw, rest)) { CutIsHole(script); }
  }

  lemma HoleIsCut(text: string, raw: string, rest: string)
    requires BeforeHole(text) && InsideHole(raw)
    ensures Cut(text + "{{" + raw + "}}" + rest) == Some((text, raw, rest))
  {
    var script := text + "{{" + raw + "}}" + rest;
    assert ['{', '{'] == "{{" && ['}', '}'] == "}}";
    var after := raw + ['}', '}'] + rest;
    assert script == text + ['{', '{'] + after;
    FirstPair(text, '{', after);
    FirstPair(raw, '}', rest);
    hide FindPair, NoPair, EndsIn, PairAt;
    assert script[..|text|] == text && script[|text| + 2..] == after;
    assert after[..|raw|] == raw && after[|raw| + 2..] == rest;
  }

  lemma CutIsHole(script: string)
    requires Cut(script).Some?
    ensures
      var (text, raw, rest) := Cut(script).value;
      BeforeHole(text) && InsideHole(raw) && script == text + "{{" + raw + "}}" + rest
  {
    var (text, raw, rest) := Cut(script).value;
    CutLosesNothing(script);
    NoneBeforeFirst(script, '{');
    NoneBeforeFirst(script[FindPair(script, '{').value + 2..], '}');
    hide NoPair, EndsIn, FindPair;
    Flat(text, raw, rest);
  }

  lemma Flat(text: string, raw: string, rest: string)
    ensures text + ("{{" + raw + "}}") + rest == text + "{{" + raw + "}}" + rest
  {
  }

  lemma {:induction false} SubstituteConcat(a: seq<Part>, b: seq<Part>, vars: map<string, string>)
    ensures Substitute(a + b, vars) == Substitute(a, vars) + Substitute(b, vars)
  {
    if b == [] {
      assert a + b == a;
    } else {
      assert (a + b)[..|a + b| - 1] == a + b[..|b| - 1];
      assert (a + b)[|a + b| - 1] == b[|b| - 1];
      SubstituteConcat(a, b[..|b| - 1], vars);
      hide ExpandPart;
      Regroup(Substitute(a, vars), Substitute(b[..|b| - 1], vars), ExpandPart(b[|b| - 1], vars));
    }
  }

  lemma Regroup(a: string, b: string, c: string)
    ensures (a + b) + c == a + (b + c)
  {
  }

  lemma OneHole(text: string, raw: string, rest: string, vars: map<string, string>)
    requires BeforeHole(text) && InsideHole(raw)
    ensures Expansion(text + "{{" + raw + "}}" + rest, vars) ==
              text + (if ValidName(Trim(raw)) && Trim(raw) in vars then vars[Trim(raw)] else "{{" + raw + "}}") +
              Expansion(rest, vars)
  {
    var script := text + "{{" + raw + "}}" + rest;
    HoleIsCut(text, raw, rest);
    hide Cut, Trim, ValidName, NoPair, EndsIn, Substitute;
    var hole := [Lit(text), Hole(raw)];
    assert Parts(script) == hole + Parts(rest);
    SubstituteConcat(hole, Parts(rest), vars);
    assert [] + hole == hole && "" + text == text;
    SubstituteTwo([], text, raw, vars);
    NothingToSubstitute(vars);
  }

  /** A variable becomes its value, exactly as it is, and expansion goes on behind the hole. */
  lemma VariableExpands(text: string, raw: string, rest: string, vars: map<string, string>)
    requires BeforeHole(text) && InsideHole(raw) && Trim(raw) in vars
    requires Trim(raw) != "" && forall c :: c in Trim(raw) ==> c !in "{}\n"
    ensures Expansion(text + "{{" + raw + "}}" + rest, vars) == text + vars[Trim(raw)] + Expansion(rest, vars)
  {
    hide Trim, Expansion;
    OneHole(text, raw, rest, vars);
  }

  /** Any valid name without outer space can stand in a hole. */
  lemma NameFitsHole(name: string)
    requires ValidName(name)
    ensures InsideHole(name)
  {
    assert forall k :: 0 <= k < |name| ==> name[k] in name;
  }

  /** A hole with anything but a variable in it is copied as written. */
  lemma OtherHoleStays(text: string, raw: string, rest: string, vars: map<string, string>)
    requires BeforeHole(text) && InsideHole(raw)
    requires Trim(raw) == "" || Trim(raw) !in vars || exists c :: c in Trim(raw) && c in "{}\n"
    ensures Expansion(text + "{{" + raw + "}}" + rest, vars) == text + "{{" + raw + "}}" + Expansion(rest, vars)
  {
    hide Trim, Expansion;
    OneHole(text, raw, rest, vars);
    Flat(text, raw, Expansion(rest, vars));
  }

  /** Without a hole nothing changes. */
  lemma NoHoleNoChange(script: string, vars: map<string, string>)
    requires forall text, raw, rest ::
      BeforeHole(text) && InsideHole(raw) ==> script != text + "{{" + raw + "}}" + rest
    ensures Expansion(script, vars) == script
  {
    if Cut(script).Some? { CutIsHole(script); }
    hide Cut, NoPair, EndsIn, Substitute;
    assert Parts(script) == [Lit(script)];
    assert [] + [Lit(script)] == [Lit(script)];
    SubstituteLast([], Lit(script), vars);
    NothingToSubstitute(vars);
  }

  /** Literal text and a name, over and over. */
  function Template(pieces: seq<(string, string)>, tail: string): string {
    if pieces == [] then tail
    else pieces[0].0 + "{{" + pieces[0].1 + "}}" + Template(pieces[1..], tail)
  }

  /** The same text with the values in place of the names. */
  function Filled(pieces: seq<(string, string)>, tail: string, vars: map<string, string>): string
    requires forall p :: p in pieces ==> p.1 in vars
  {
    if pieces == [] then tail
    else pieces[0].0 + vars[pieces[0].1] + Filled(pieces[1..], tail, vars)
  }

  /** A whole template: whatever the values contain, they end up where the names stood, and nothing else changes. */
  lemma {:induction false} TemplateExpands(pieces: seq<(string, string)>, tail: string, vars: map<string, string>)
    requires forall p :: p in pieces ==> BeforeHole(p.0) && ValidName(p.1) && Trim(p.1) == p.1 && p.1 in vars
    requires NoPair(tail, '{')
    ensures Expansion(Template(pieces, tail), vars) == Filled(pieces, tail, vars)
  {
    if pieces == [] {
      NoBracesNoChange(tail, vars);
    } else {
      var p := pieces[0];
      assert p in pieces;
      forall q | q in pieces[1..] ensures q in pieces { }
      TemplateExpands(pieces[1..], tail, vars);
      NameFitsHole(p.1);
      VariableExpands(p.0, p.1, Template(pieces[1..], tail), vars);
    }
  }

  lemma NoBracesNoChange(tail: string, vars: map<string, string>)
    requires NoPair(tail, '{')
    ensures Expansion(tail, vars) == tail
  {
    forall text, raw, rest | BeforeHole(text) && InsideHole(raw)
      ensures tail != text + "{{" + raw + "}}" + rest
    {
      var script := text + "{{" + raw + "}}" + rest;
      var k := |text|;
      assert script[k] == '{' && script[k + 1] == '{';
      assert PairAt(script, '{', k);
    }
    NoHoleNoChange(tail, vars);
  }
}
