/** The e-mail syntax check `/^[^\s@]+@[^\s@]+\.[^\s@]+$/.test(email)` used by
    both form handlers (functions/index.js lines 79 and 226).

    Three descriptions of the same set of strings are related here:
    - `MatchesPattern`: the language of the regular expression, read as a
      concatenation `local "@" head "." tail` of non-empty runs of `[^\s@]`;
    - `WellFormed`: the characterisation in words (no whitespace, exactly one
      `@`, a non-empty local part, a domain with a `.` that is neither its
      first nor its last character);
    - `EmailRegexTest`: an executable left-to-right scan by the automaton of
      the expression, which is what the handlers call. */
module EmailSyntax {

  /** ECMAScript `\s`: the WhiteSpace and LineTerminator code points. */
  predicate IsWhitespace(c: char) {
    || c == ' ' || c == '\t' || c == '\n' || c == '\r' || c == '\U{000B}' || c == '\U{000C}'
    || c == '\U{00A0}' || c == '\U{1680}' || ('\U{2000}' <= c <= '\U{200A}')
    || c == '\U{2028}' || c == '\U{2029}' || c == '\U{202F}' || c == '\U{205F}'
    || c == '\U{3000}' || c == '\U{FEFF}'
  }

  /** The character class `[^\s@]`. */
  predicate InClass(c: char) {
    !IsWhitespace(c) && c != '@'
  }

  predicate AllInClass(s: string) {
    forall k :: 0 <= k < |s| ==> InClass(s[k])
  }

  predicate NoWhitespace(s: string) {
    forall k :: 0 <= k < |s| ==> !IsWhitespace(s[k])
  }

  /** `d` holds a `.` that is neither its first nor its last character. */
  predicate HasInteriorDot(d: string) {
    exists k :: 0 < k < |d| - 1 && d[k] == '.'
  }

  /** The language of `^[^\s@]+@[^\s@]+\.[^\s@]+$`: an `@` at `i` and a `.` at
      `j` cut the string into three non-empty runs of `[^\s@]`. */
  ghost predicate MatchesPattern(s: string) {
    exists i, j ::
      && 0 < i && i + 1 < j && j + 1 < |s|
      && s[i] == '@' && s[j] == '.'
      && AllInClass(s[..i]) && AllInClass(s[i + 1..j]) && AllInClass(s[j + 1..])
  }

  /** The characterisation: no whitespace, exactly one `@` (at `i > 0`, so the
      local part is non-empty), and a domain with an interior `.`. */
  ghost predicate WellFormed(s: string) {
    && NoWhitespace(s)
    && exists i ::
         && 0 < i < |s| && s[i] == '@'
         && (forall k :: 0 <= k < |s| && s[k] == '@' ==> k == i)
         && HasInteriorDot(s[i + 1..])
  }

  /** States of the automaton of the expression. `Domain`: inside the domain,
      no interior dot yet and the last character is not a dot following
      another character; `DomainDot`: the last character is such a dot;
      `Done`: the domain has an interior dot (accepting). */
  datatype ScanState = Start | Local | AtSign | Domain | DomainDot | Done | Reject

  function Step(q: ScanState, c: char): (next: ScanState) {
    if IsWhitespace(c) then Reject
    else match q
      case Start => if c == '@' then Reject else Local
      case Local => if c == '@' then AtSign else Local
      case AtSign => if c == '@' then Reject else Domain
      case Domain => if c == '@' then Reject else if c == '.' then DomainDot else Domain
      case DomainDot => if c == '@' then Reject else Done
      case Done => if c == '@' then Reject else Done
      case Reject => Reject
  }

  /** The state reached after reading all of `s` from the left. */
  function Scan(s: string): (q: ScanState) {
    if s == [] then Start else Step(Scan(s[..|s| - 1]), s[|s| - 1])
  }

  /** Index of the first `@` in `s`, or `|s|` when there is none. */
  function FirstAt(s: string): (k: nat)
    ensures k <= |s|
    ensures k < |s| ==> s[k] == '@'
    ensures forall j :: 0 <= j < k ==> s[j] != '@'
  {
    if s == [] then 0
    else if s[0] == '@' then 0
    else 1 + FirstAt(s[1..])
  }

  /** What `Scan` should reach, described by the prefix read so far. */
  ghost function Expected(p: string): (q: ScanState) {
    if !NoWhitespace(p) then Reject
    else if p == [] then Start
    else
      var k := FirstAt(p);
      if k == |p| then Local
      else if k == 0 then Reject
      else DomainState(p[k + 1..])
  }

  /** What `Scan` should reach once `@` has been read and `d` follows it. */
  ghost function DomainState(d: string): (q: ScanState) {
    if '@' in d then Reject
    else if d == [] then AtSign
    else if HasInteriorDot(d) then Done
    else if |d| >= 2 && d[|d| - 1] == '.' then DomainDot
    else Domain
  }

  /** The executable test the handlers perform. */
  function EmailRegexTest(s: string): (ok: bool)
    ensures ok <==> MatchesPattern(s)
    ensures ok <==> WellFormed(s)
  {
    ScanMatchesExpected(s);
    ExpectedDoneIffWellFormed(s);
    PatternIffWellFormed(s);
    Scan(s) == Done
  }

  lemma {:induction false} FirstAtAppend(q: string, c: char)
    ensures FirstAt(q + [c]) == if FirstAt(q) < |q| then FirstAt(q) else if c == '@' then |q| else |q| + 1
  {
    if q != [] {
      assert (q + [c])[1..] == q[1..] + [c];
      if q[0] != '@' {
        FirstAtAppend(q[1..], c);
      }
    }
  }

  lemma InteriorDotAppend(d: string, c: char)
    ensures HasInteriorDot(d + [c]) <==> HasInteriorDot(d) || (|d| >= 2 && d[|d| - 1] == '.')
  {
    var e := d + [c];
    if HasInteriorDot(e) && !(|d| >= 2 && d[|d| - 1] == '.') {
      var k :| 0 < k < |e| - 1 && e[k] == '.';
      assert k < |d| - 1 && d[k] == '.';
    }
    if HasInteriorDot(d) {
      var k :| 0 < k < |d| - 1 && d[k] == '.';
      assert e[k] == '.';
    }
    if |d| >= 2 && d[|d| - 1] == '.' {
      assert e[|d| - 1] == '.';
    }
  }

  /** Reading a character in the local part (no `@` read yet). */
  lemma ExpectedStepLocal(q: string, c: char)
    requires q != [] && NoWhitespace(q) && !IsWhitespace(c) && FirstAt(q) == |q|
    ensures Expected(q + [c]) == Step(Expected(q), c)
  {
    var p := q + [c];
    assert NoWhitespace(p);
    FirstAtAppend(q, c);
    if c == '@' {
      assert p[|q| + 1..] == [];
    }
  }

  /** In the domain, `DomainState` moves as the automaton moves. */
  lemma DomainStateStep(d: string, c: char)
    requires !IsWhitespace(c)
    ensures DomainState(d + [c]) == Step(DomainState(d), c)
  {
    InteriorDotAppend(d, c);
    if '@' in d {
      assert '@' in d + [c];
    } else if c == '@' {
      assert (d + [c])[|d|] == '@';
    } else {
      assert '@' !in d + [c];
      if d == [] {
        assert !HasInteriorDot([c]);
      }
    }
  }

  /** Reading a character after the one `@`. */
  lemma ExpectedStepDomain(q: string, c: char)
    requires NoWhitespace(q) && !IsWhitespace(c) && 0 < FirstAt(q) < |q|
    ensures Expected(q + [c]) == Step(Expected(q), c)
  {
    var p := q + [c];
    assert NoWhitespace(p);
    FirstAtAppend(q, c);
    var k := FirstAt(q);
    assert p[k + 1..] == q[k + 1..] + [c];
    DomainStateStep(q[k + 1..], c);
  }

  /** One more character moves `Expected` as the automaton moves. */
  lemma ExpectedStep(q: string, c: char)
    ensures Expected(q + [c]) == Step(Expected(q), c)
  {
    var p := q + [c];
    if !NoWhitespace(q) {
      var w :| 0 <= w < |q| && IsWhitespace(q[w]);
      assert p[w] == q[w];
    } else if IsWhitespace(c) {
      assert p[|q|] == c;
    } else if q == [] {
      assert p == [c];
    } else {
      FirstAtAppend(q, c);
      if FirstAt(q) == |q| {
        ExpectedStepLocal(q, c);
      } else if FirstAt(q) > 0 {
        ExpectedStepDomain(q, c);
      } else {
        assert NoWhitespace(p);
      }
    }
  }

  /** The automaton tracks `Expected` on every prefix. */
  lemma {:induction false} ScanMatchesExpected(p: string)
    ensures Scan(p) == Expected(p)
  {
    if p != [] {
      var q, c := p[..|p| - 1], p[|p| - 1];
      assert p == q + [c];
      ScanMatchesExpected(q);
      ExpectedStep(q, c);
    }
  }

  lemma ExpectedDoneIffWellFormed(s: string)
    ensures Expected(s) == Done <==> WellFormed(s)
  {
    if WellFormed(s) {
      var i :| && 0 < i < |s| && s[i] == '@'
               && (forall k :: 0 <= k < |s| && s[k] == '@' ==> k == i)
               && HasInteriorDot(s[i + 1..]);
      assert FirstAt(s) == i;
    }
  }

  /** A slice whose characters are all in `[^\s@]` is a run of the class. */
  lemma SliceInClass(s: string, lo: nat, hi: nat)
    requires lo <= hi <= |s|
    requires forall k :: lo <= k < hi ==> InClass(s[k])
    ensures AllInClass(s[lo..hi])
  {
    forall k | 0 <= k < hi - lo
      ensures InClass(s[lo..hi][k])
    {
      assert s[lo..hi][k] == s[lo + k];
    }
  }

  /** Outside the two cut points, a string of the language is in `[^\s@]`. */
  lemma CutRunsInClass(s: string, i: nat, j: nat)
    requires 0 < i && i + 1 < j && j + 1 < |s|
    requires AllInClass(s[..i]) && AllInClass(s[i + 1..j]) && AllInClass(s[j + 1..])
    ensures forall k :: 0 <= k < |s| && k != i && k != j ==> InClass(s[k])
  {
    forall k | 0 <= k < |s| && k != i && k != j
      ensures InClass(s[k])
    {
      if k < i {
        assert s[..i][k] == s[k];
      } else if k < j {
        assert s[i + 1..j][k - i - 1] == s[k];
      } else {
        assert s[j + 1..][k - j - 1] == s[k];
      }
    }
  }

  lemma PatternImpliesWellFormed(s: string)
    requires MatchesPattern(s)
    ensures WellFormed(s)
  {
    var i, j :|
      && 0 < i && i + 1 < j && j + 1 < |s|
      && s[i] == '@' && s[j] == '.'
      && AllInClass(s[..i]) && AllInClass(s[i + 1..j]) && AllInClass(s[j + 1..]);
    CutRunsInClass(s, i, j);
    assert NoWhitespace(s) by {
      forall k | 0 <= k < |s| ensures !IsWhitespace(s[k]) {
        if k != i && k != j {
          assert InClass(s[k]);
        }
      }
    }
    assert forall k :: 0 <= k < |s| && s[k] == '@' ==> k == i;
    assert s[i + 1..][j - i - 1] == '.';
    assert HasInteriorDot(s[i + 1..]);
  }

  lemma WellFormedImpliesPattern(s: string)
    requires WellFormed(s)
    ensures MatchesPattern(s)
  {
    var i :| && 0 < i < |s| && s[i] == '@'
             && (forall k :: 0 <= k < |s| && s[k] == '@' ==> k == i)
             && HasInteriorDot(s[i + 1..]);
    var d := s[i + 1..];
    var m :| 0 < m < |d| - 1 && d[m] == '.';
    var j := i + 1 + m;
    assert s[j] == '.';
    SliceInClass(s, 0, i);
    SliceInClass(s, i + 1, j);
    SliceInClass(s, j + 1, |s|);
    assert s[..i] == s[0..i];
    assert s[j + 1..] == s[j + 1..|s|];
  }

  lemma PatternIffWellFormed(s: string)
    ensures MatchesPattern(s) <==> WellFormed(s)
  {
    if MatchesPattern(s) {
      PatternImpliesWellFormed(s);
    }
    if WellFormed(s) {
      WellFormedImpliesPattern(s);
    }
  }

  /** Sample addresses: `a@b.co` is accepted; `a@b`, `a b@c.com`
      and the empty string are rejected. */
  lemma EmailExamples()
    ensures EmailRegexTest("a@b.co")
    ensures !EmailRegexTest("a@b")
    ensures !EmailRegexTest("a b@c.com")
    ensures !EmailRegexTest("")
  {
    assert Scan("a@b.co") == Done by {
      assert "a@b.co"[..5] == "a@b.c";
      assert "a@b.c"[..4] == "a@b.";
      assert "a@b."[..3] == "a@b";
      assert "a@b"[..2] == "a@";
      assert "a@"[..1] == "a";
      assert "a"[..0] == "";
    }
    assert Scan("a@b") == Domain by {
      assert "a@b"[..2] == "a@";
      assert "a@"[..1] == "a";
      assert "a"[..0] == "";
    }
    assert !NoWhitespace("a b@c.com") by {
      assert IsWhitespace("a b@c.com"[1]);
    }
    ScanMatchesExpected("a b@c.com");
  }
}
