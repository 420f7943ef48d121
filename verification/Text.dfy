/** Searching and stripping single lines of text. */
module Text {
  import opened Wrappers

  predicate IsBlank(c: char) { c == ' ' || c == '\t' || c == '\r' || c == '\U{0B}' || c == '\U{0C}' }

  predicate IsDigit(c: char) { '0' <= c <= '9' }

  predicate IsLetter(c: char) { 'A' <= c <= 'Z' || 'a' <= c <= 'z' }

  function Up(c: char): char { if 'a' <= c <= 'z' then (c as int - 32) as char else c }

  function Down(c: char): char { if 'A' <= c <= 'Z' then (c as int + 32) as char else c }

  function Upper(s: string): string { seq(|s|, i requires 0 <= i < |s| => Up(s[i])) }

  function Lower(s: string): string { seq(|s|, i requires 0 <= i < |s| => Down(s[i])) }

  predicate Starts(s: string, w: string) { |w| <= |s| && s[..|w|] == w }

  /** Case-insensitive prefix; `w` is given in upper case. */
  predicate StartsUpper(s: string, w: string) { |w| <= |s| && Upper(s[..|w|]) == w }

  function Spaces(n: nat): string { seq(n, _ => ' ') }

  /** Number of leading characters of `s` that satisfy `p`. */
  function Run(s: string, p: char -> bool): (n: nat)
    ensures n <= |s|
  {
    if s == "" || !p(s[0]) then 0 else 1 + Run(s[1..], p)
  }

  lemma {:induction false} RunIs(a: string, b: string, p: char -> bool)
    requires forall i :: 0 <= i < |a| ==> p(a[i])
    requires b == "" || !p(b[0])
    ensures Run(a + b, p) == |a|
  {
    if a == "" {
      assert a + b == b;
    } else {
      assert (a + b)[1..] == a[1..] + b;
      RunIs(a[1..], b, p);
    }
  }

  /** Least index at or after `from` where `p` holds. */
  function Find(s: string, from: nat, p: (string, nat) -> bool): Option<nat>
    decreases |s| - from
  {
    if from >= |s| then None
    else if p(s, from) then Some(from)
    else Find(s, from + 1, p)
  }

  lemma {:induction false} FindIs(s: string, from: nat, k: nat, p: (string, nat) -> bool)
    requires from <= k < |s| && p(s, k)
    requires forall j :: from <= j < k ==> !p(s, j)
    ensures Find(s, from, p) == Some(k)
    decreases k - from
  {
    if from < k {
      FindIs(s, from + 1, k, p);
    }
  }

  lemma {:induction false} FindNone(s: string, from: nat, p: (string, nat) -> bool)
    requires forall j :: from <= j < |s| ==> !p(s, j)
    ensures Find(s, from, p) == None
    decreases |s| - from
  {
    if from < |s| {
      FindNone(s, from + 1, p);
    }
  }

  function StripLeft(s: string): string {
    if s != "" && IsBlank(s[0]) then StripLeft(s[1..]) else s
  }

  function StripRight(s: string): string {
    if s != "" && IsBlank(s[|s| - 1]) then StripRight(s[..|s| - 1]) else s
  }

  function Strip(s: string): string { StripRight(StripLeft(s)) }

  predicate Tight(s: string) { s != "" && !IsBlank(s[0]) && !IsBlank(s[|s| - 1]) }

  lemma {:induction false} StripLeftSpaces(n: nat, s: string)
    requires s == "" || !IsBlank(s[0])
    ensures StripLeft(Spaces(n) + s) == s
  {
    if n == 0 {
      assert Spaces(0) + s == s;
    } else {
      assert (Spaces(n) + s)[1..] == Spaces(n - 1) + s;
      StripLeftSpaces(n - 1, s);
    }
  }

  lemma {:induction false} StripRightSpaces(s: string, n: nat)
    requires s == "" || !IsBlank(s[|s| - 1])
    ensures StripRight(s + Spaces(n)) == s
  {
    if n == 0 {
      assert s + Spaces(0) == s;
    } else {
      assert (s + Spaces(n))[..|s| + n - 1] == s + Spaces(n - 1);
      StripRightSpaces(s, n - 1);
    }
  }

  /** Stripping a tight text surrounded by spaces. */
  lemma StripSpaces(a: nat, s: string, b: nat)
    requires Tight(s)
    ensures Strip(Spaces(a) + s + Spaces(b)) == s
  {
    assert Spaces(a) + s + Spaces(b) == Spaces(a) + (s + Spaces(b));
    StripLeftSpaces(a, s + Spaces(b));
    StripRightSpaces(s, b);
  }

  lemma {:induction false} StripRightKeepsFirst(s: string)
    requires s != "" && !IsBlank(s[0])
    ensures StripRight(s) != "" && StripRight(s)[0] == s[0]
  {
    if IsBlank(s[|s| - 1]) {
      StripRightKeepsFirst(s[..|s| - 1]);
    }
  }

  lemma {:induction false} StripRightPrefix(s: string)
    ensures StripRight(s) <= s
  {
    if s != "" && IsBlank(s[|s| - 1]) {
      StripRightPrefix(s[..|s| - 1]);
    }
  }
}
