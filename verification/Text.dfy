/** Stripping text. */
module Text {
  function StripLeft(s: string, isSpace: char -> bool): string {
    if s != [] && isSpace(s[0]) then StripLeft(s[1..], isSpace) else s
  }

  function StripRight(s: string, isSpace: char -> bool): string {
    if s != [] && isSpace(s[|s| - 1]) then StripRight(s[..|s| - 1], isSpace) else s
  }

  /** s.strip() */
  function Strip(s: string, isSpace: char -> bool): string {
    StripRight(StripLeft(s, isSpace), isSpace)
  }

  lemma StripNothing(s: string, isSpace: char -> bool)
    requires s == [] || (!isSpace(s[0]) && !isSpace(s[|s| - 1]))
    ensures Strip(s, isSpace) == s
  {
  }

  lemma {:induction false} StripFront(a: string, s: string, isSpace: char -> bool)
    requires (forall c | c in a :: isSpace(c)) && s != [] && !isSpace(s[0])
    ensures StripLeft(a + s, isSpace) == s
  {
    if a == [] {
      assert a + s == s;
    } else {
      assert (a + s)[1..] == a[1..] + s;
      StripFront(a[1..], s, isSpace);
    }
  }

  lemma {:induction false} StripBack(s: string, b: string, isSpace: char -> bool)
    requires (forall c | c in b :: isSpace(c)) && s != [] && !isSpace(s[|s| - 1])
    ensures StripRight(s + b, isSpace) == s
  {
    if b == [] {
      assert s + b == s;
    } else {
      assert (s + b)[..|s + b| - 1] == s + b[..|b| - 1];
      StripBack(s, b[..|b| - 1], isSpace);
    }
  }

  /** Stripping takes the spaces off both ends and nothing else. */
  lemma StripBoth(a: string, s: string, b: string, isSpace: char -> bool)
    requires (forall c | c in a || c in b :: isSpace(c)) && s != [] && !isSpace(s[0]) && !isSpace(s[|s| - 1])
    ensures Strip(a + s + b, isSpace) == s && StripLeft(a + s, isSpace) == s
  {
    StripFront(a, s + b, isSpace);
    StripFront(a, s, isSpace);
    assert a + s + b == a + (s + b);
    StripBack(s, b, isSpace);
  }

  /** Nothing but spaces strips to nothing. */
  lemma {:induction false} StripSpaces(a: string, isSpace: char -> bool)
    requires forall c | c in a :: isSpace(c)
    ensures Strip(a, isSpace) == []
  {
    if a != [] {
      StripSpaces(a[1..], isSpace);
    }
  }

  ghost predicate AllSpace(a: string, isSpace: char -> bool) {
    forall c | c in a :: isSpace(c)
  }

  lemma {:induction false} LeftSpaces(s: string, isSpace: char -> bool) returns (a: string)
    ensures AllSpace(a, isSpace) && s == a + StripLeft(s, isSpace)
    ensures StripLeft(s, isSpace) != [] ==> !isSpace(StripLeft(s, isSpace)[0])
  {
    if s != [] && isSpace(s[0]) {
      a := LeftSpaces(s[1..], isSpace);
      a := [s[0]] + a;
    } else {
      a := [];
    }
  }

  lemma {:induction false} RightSpaces(s: string, isSpace: char -> bool) returns (b: string)
    ensures AllSpace(b, isSpace) && s == StripRight(s, isSpace) + b
    ensures StripRight(s, isSpace) != [] ==> !isSpace(StripRight(s, isSpace)[|StripRight(s, isSpace)| - 1])
  {
    if s != [] && isSpace(s[|s| - 1]) {
      b := RightSpaces(s[..|s| - 1], isSpace);
      b := b + [s[|s| - 1]];
    } else {
      b := [];
    }
  }

  /** What was stripped are spaces. */
  lemma StripIs(s: string, isSpace: char -> bool) returns (a: string, b: string)
    ensures AllSpace(a, isSpace) && AllSpace(b, isSpace) && s == a + Strip(s, isSpace) + b
  {
    a := LeftSpaces(s, isSpace);
    b := RightSpaces(StripLeft(s, isSpace), isSpace);
  }
}
