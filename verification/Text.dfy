/** The few string operations the modelled code relies on. */
module Text {

  /** Unicode White_Space, as `char::is_whitespace`. */
  predicate IsSpace(c: char) {
    var n := c as int;
    9 <= n <= 13 || n == 0x20 || n == 0x85 || n == 0xA0 || n == 0x1680 || 0x2000 <= n <= 0x200A ||
    n == 0x2028 || n == 0x2029 || n == 0x202F || n == 0x205F || n == 0x3000
  }

  function TrimStart(s: string): string {
    if s != [] && IsSpace(s[0]) then TrimStart(s[1..]) else s
  }

  function TrimEnd(s: string): string {
    if s != [] && IsSpace(s[|s| - 1]) then TrimEnd(s[..|s| - 1]) else s
  }

  function Trim(s: string): string { TrimEnd(TrimStart(s)) }

  /** The part before the first character of `stops`. */
  function Until(s: string, stops: char -> bool): (r: string)
    ensures |r| <= |s|
  {
    if s == [] || stops(s[0]) then [] else [s[0]] + Until(s[1..], stops)
  }

  /** The first line, without its line break, as `str::lines` yields it. */
  function FirstLine(s: string): string {
    var line := Until(s, c => c == '\n');
    if |line| < |s| && line != [] && line[|line| - 1] == '\r' then line[..|line| - 1] else line
  }

  lemma {:induction false} TrimStartStops(s: string)
    ensures TrimStart(s) == [] || !IsSpace(TrimStart(s)[0])
  {
    if s != [] && IsSpace(s[0]) { TrimStartStops(s[1..]); }
  }

  lemma {:induction false} TrimEndStops(s: string)
    ensures TrimEnd(s) <= s && (TrimEnd(s) == [] || !IsSpace(TrimEnd(s)[|TrimEnd(s)| - 1]))
    ensures s != [] && !IsSpace(s[0]) ==> TrimEnd(s) != [] && TrimEnd(s)[0] == s[0]
  {
    if s != [] && IsSpace(s[|s| - 1]) { TrimEndStops(s[..|s| - 1]); }
  }

  /** Trimming twice changes nothing. */
  lemma TrimTwice(s: string)
    ensures Trim(Trim(s)) == Trim(s)
  {
    TrimStartStops(s);
    TrimEndStops(TrimStart(s));
  }

  lemma EmptyTrims()
    ensures Trim("") == ""
  {
  }

  predicate AllSpace(s: string) { forall c :: c in s ==> IsSpace(c) }

  lemma {:induction false} TrimStartCuts(s: string)
    ensures |TrimStart(s)| <= |s| && s[|s| - |TrimStart(s)|..] == TrimStart(s)
    ensures AllSpace(s[..|s| - |TrimStart(s)|])
  {
    if s != [] && IsSpace(s[0]) {
      var rest := s[1..];
      TrimStartCuts(rest);
      var n := |rest| - |TrimStart(rest)|;
      assert s[..n + 1] == [s[0]] + rest[..n];
    }
  }

  lemma {:induction false} TrimEndCuts(s: string)
    ensures |TrimEnd(s)| <= |s| && AllSpace(s[|TrimEnd(s)|..])
    decreases |s|
  {
    TrimEndStops(s);
    if s != [] && IsSpace(s[|s| - 1]) {
      var rest := s[..|s| - 1];
      TrimEndCuts(rest);
      TrimEndStops(rest);
      assert s[|TrimEnd(rest)|..] == rest[|TrimEnd(rest)|..] + [s[|s| - 1]];
    }
  }

  /** Trimming takes space off both ends, and all of it. */
  lemma TrimIs(s: string)
    ensures exists a, b :: s == a + Trim(s) + b && AllSpace(a) && AllSpace(b)
    ensures Trim(s) == "" || (!IsSpace(Trim(s)[0]) && !IsSpace(Trim(s)[|Trim(s)| - 1]))
  {
    var mid := TrimStart(s);
    TrimStartCuts(s);
    TrimStartStops(s);
    TrimEndCuts(mid);
    TrimEndStops(mid);
    var a, b := s[..|s| - |mid|], mid[|Trim(s)|..];
    assert s == a + Trim(s) + b;
  }

  /** `Until` gives what stands before the first character to stop at. */
  lemma {:induction false} UntilStops(a: string, b: string, stops: char -> bool)
    requires (forall c :: c in a ==> !stops(c)) && (b == "" || stops(b[0]))
    ensures Until(a + b, stops) == a
  {
    if a == "" {
      assert a + b == b;
    } else {
      assert (a + b)[1..] == a[1..] + b;
      UntilStops(a[1..], b, stops);
    }
  }
}
