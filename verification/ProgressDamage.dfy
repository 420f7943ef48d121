/** The repairer on any line: it rewrites exactly the lines that are a step label and a status
    word, in any case and with any blanks around them. */
module ProgressDamage {
  import opened Wrappers
  import opened Text
  import opened Progress
  import opened ProgressLines
  import opened ProgressRows
  import opened ProgressRepair

  predicate Blanks(s: string) { forall i :: 0 <= i < |s| ==> IsBlank(s[i]) }

  /** One of the five status words, in any case. */
  predicate StatusWord(w: string) {
    || Upper(w) == "DONE" || Upper(w) == "IN_PROGRESS" || Upper(w) == "NOT_STARTED"
    || Upper(w) == "BLOCKED" || Upper(w) == "SKIPPED"
  }

  /** The parts of a line that has lost its tag. */
  datatype Parts = Parts(lead: string, title: string, gap: string, word: string, trail: string)

  function Assembled(p: Parts): string { p.lead + (p.title + p.gap + p.word) + p.trail }

  ghost predicate Tagless(p: Parts, k: nat) {
    && Blanks(p.lead) && Blanks(p.gap) && Blanks(p.trail) && StatusWord(p.word)
    && k < STEPS && Lower(p.title) == Lower(StepLabel(k)) && |p.title + p.gap + p.word| > 10
  }

  // ----- Stripping -----

  lemma {:induction false} StripLeftIs(a: string, s: string)
    requires Blanks(a) && (s == "" || !IsBlank(s[0]))
    ensures StripLeft(a + s) == s
  {
    if a == "" {
      assert a + s == s;
    } else {
      assert (a + s)[1..] == a[1..] + s;
      StripLeftIs(a[1..], s);
    }
  }

  lemma {:induction false} StripRightIs(s: string, b: string)
    requires Blanks(b) && (s == "" || !IsBlank(s[|s| - 1]))
    ensures StripRight(s + b) == s
  {
    if b == "" {
      assert s + b == s;
    } else {
      var n := |b| - 1;
      assert (s + b)[..|s + b| - 1] == s + b[..n];
      StripRightIs(s, b[..n]);
    }
  }

  lemma StripIs(a: string, s: string, b: string)
    requires Blanks(a) && Blanks(b) && Tight(s)
    ensures Strip(a + s + b) == s
  {
    assert a + s + b == a + (s + b);
    StripLeftIs(a, s + b);
    StripRightIs(s, b);
  }

  lemma {:induction false} StripLeftParts(s: string) returns (a: string)
    ensures Blanks(a) && s == a + StripLeft(s) && (StripLeft(s) == "" || !IsBlank(StripLeft(s)[0]))
  {
    a := "";
    if s != "" && IsBlank(s[0]) {
      var rest := StripLeftParts(s[1..]);
      a := [s[0]] + rest;
    }
  }

  lemma {:induction false} StripRightParts(s: string) returns (b: string)
    ensures Blanks(b) && s == StripRight(s) + b
    ensures StripRight(s) == "" || (StripRight(s)[0] == s[0] && !IsBlank(StripRight(s)[|StripRight(s)| - 1]))
  {
    b := "";
    if s != "" && IsBlank(s[|s| - 1]) {
      var rest := StripRightParts(s[..|s| - 1]);
      b := rest + [s[|s| - 1]];
    }
  }

  lemma StripParts(s: string) returns (a: string, b: string)
    ensures Blanks(a) && Blanks(b) && s == a + Strip(s) + b && (Strip(s) == "" || Tight(Strip(s)))
  {
    a := StripLeftParts(s);
    b := StripRightParts(StripLeft(s));
    assert a + (Strip(s) + b) == a + Strip(s) + b;
  }

  // ----- Status words -----

  lemma WordLetters(w: string)
    requires StatusWord(w)
    ensures |w| >= 4 && IsLetter(w[|w| - 1])
  {
    assert Upper(w)[|w| - 1] == Up(w[|w| - 1]);
  }

  lemma EndsUpperIs(s: string, w: string, u: string)
    ensures |w| == |u| ==> (EndsUpper(s + w, u) <==> Upper(w) == u)
    ensures |w| == |u| ==> (s + w)[|s + w| - |u|..] == w
  {
    if |w| == |u| {
      assert (s + w)[|s + w| - |u|..] == w;
    }
  }

  /** Two endings in the same place agree in their last letters. */
  lemma EndsAlike(s: string, u: string, v: string)
    requires EndsUpper(s, u) && EndsUpper(s, v) && u != "" && v != ""
    ensures u[|u| - 1] == v[|v| - 1]
    ensures |u| >= 2 && |v| >= 2 ==> u[|u| - 2] == v[|v| - 2]
  {
    var n := |s|;
    assert Upper(s[n - |u|..])[|u| - 1] == Up(s[n - 1]) && Upper(s[n - |v|..])[|v| - 1] == Up(s[n - 1]);
    if |u| >= 2 && |v| >= 2 {
      assert Upper(s[n - |u|..])[|u| - 2] == Up(s[n - 2]) && Upper(s[n - |v|..])[|v| - 2] == Up(s[n - 2]);
    }
  }

  lemma EndsAlikeThird(s: string, u: string, v: string)
    requires EndsUpper(s, u) && EndsUpper(s, v) && |u| >= 3 && |v| >= 3
    ensures u[|u| - 3] == v[|v| - 3]
  {
    var n := |s|;
    assert Upper(s[n - |u|..])[|u| - 3] == Up(s[n - 3]) && Upper(s[n - |v|..])[|v| - 3] == Up(s[n - 3]);
  }

  /** No text ends in two of the five words. */
  lemma OneEnding(s: string)
    ensures EndsUpper(s, "DONE") ==>
              !EndsUpper(s, "IN_PROGRESS") && !EndsUpper(s, "NOT_STARTED") && !EndsUpper(s, "BLOCKED") &&
              !EndsUpper(s, "SKIPPED")
    ensures EndsUpper(s, "IN_PROGRESS") ==>
              !EndsUpper(s, "NOT_STARTED") && !EndsUpper(s, "BLOCKED") && !EndsUpper(s, "SKIPPED")
    ensures EndsUpper(s, "NOT_STARTED") ==> !EndsUpper(s, "BLOCKED") && !EndsUpper(s, "SKIPPED")
    ensures EndsUpper(s, "BLOCKED") ==> !EndsUpper(s, "SKIPPED")
  {
    hide EndsUpper;
    Apart(s, "DONE", "IN_PROGRESS");
    Apart(s, "DONE", "NOT_STARTED");
    Apart(s, "DONE", "BLOCKED");
    Apart(s, "DONE", "SKIPPED");
    Apart(s, "IN_PROGRESS", "NOT_STARTED");
    Apart(s, "IN_PROGRESS", "BLOCKED");
    Apart(s, "IN_PROGRESS", "SKIPPED");
    Apart(s, "NOT_STARTED", "BLOCKED");
    Apart(s, "NOT_STARTED", "SKIPPED");
    Apart(s, "BLOCKED", "SKIPPED");
  }

  lemma Apart(s: string, u: string, v: string)
    requires |u| >= 3 && |v| >= 3
    requires u[|u| - 1] != v[|v| - 1] || u[|u| - 2] != v[|v| - 2] || u[|u| - 3] != v[|v| - 3]
    ensures !(EndsUpper(s, u) && EndsUpper(s, v))
  {
    if EndsUpper(s, u) && EndsUpper(s, v) {
      EndsAlikeThird(s, u, v);
      EndsAlike(s, u, v);
    }
  }

  lemma EndingIs(s: string, w: string)
    requires StatusWord(w)
    ensures EndingStatus(s + w) == Some(w)
  {
    OneEnding(s + w);
    EndsUpperIs(s, w, "DONE");
    EndsUpperIs(s, w, "IN_PROGRESS");
    EndsUpperIs(s, w, "NOT_STARTED");
    EndsUpperIs(s, w, "BLOCKED");
    EndsUpperIs(s, w, "SKIPPED");
    hide EndsUpper;
  }

  lemma EndingParts(s: string)
    requires EndingStatus(s).Some?
    ensures var w := EndingStatus(s).value; |w| <= |s| && StatusWord(w) && s == s[..|s| - |w|] + w
  {
  }

  // ----- Labels -----

  lemma {:induction false} LabelOf(key: string, n: nat)
    requires n <= STEPS && StepOfLabel(key, n).Some?
    ensures StepOfLabel(key, n).value < n && key == Lower(StepLabel(StepOfLabel(key, n).value))
  {
    hide StepLabel, Lower;
    if Lower(StepLabel(n - 1)) != key {
      LabelOf(key, n - 1);
    }
  }

  lemma SameLetters(a: string, b: string)
    requires Lower(a) == Lower(b) && Tight(b)
    ensures |a| == |b| && Tight(a)
    ensures IsLetter(b[0]) ==> IsLetter(a[0])
  {
    var n := |b| - 1;
    assert |Lower(a)| == |a| && |Lower(b)| == |b|;
    assert Lower(a)[0] == Down(a[0]) && Lower(b)[0] == Down(b[0]);
    assert Lower(a)[n] == Down(a[n]) && Lower(b)[n] == Down(b[n]);
  }

  lemma LabelTight(k: nat)
    requires k < STEPS
    ensures Tight(StepLabel(k)) && IsLetter(StepLabel(k)[0])
  {
    StepTitlesGood(k);
    LabelInitial(k);
    hide StepLabel;
  }

  // ----- The repair -----

  lemma TaglessStrips(p: Parts, k: nat)
    requires Tagless(p, k)
    ensures var core := p.title + p.gap + p.word;
            Strip(Assembled(p)) == core && !Bracketed(Assembled(p)) && Tight(p.title)
  {
    LabelTight(k);
    SameLetters(p.title, StepLabel(k));
    WordLetters(p.word);
    hide StepLabel, Strip, Lower, StatusWord, Bracketed;
    var core := p.title + p.gap + p.word;
    assert core[0] == p.title[0] && core[|core| - 1] == p.word[|p.word| - 1];
    StripIs(p.lead, core, p.trail);
    NotBracketed(p.lead, core + p.trail);
    assert p.lead + (core + p.trail) == Assembled(p);
  }

  lemma TaglessFront(title: string, gap: string, word: string)
    requires Blanks(gap) && Tight(title) && StatusWord(word)
    ensures var core := title + gap + word;
            EndingStatus(core) == Some(word) && Strip(core[..|core| - |word|]) == title
  {
    hide EndingStatus, Strip, StatusWord;
    var core := title + gap + word;
    EndingIs(title + gap, word);
    assert core[..|core| - |word|] == "" + title + gap;
    StripIs("", title, gap);
  }

  /** A line that has lost its tag gets the tag of the milestone it stands below, with its
      label and its status word as they are. */
  lemma RepairsTagless(p: Parts, k: nat, mid: string)
    requires Tagless(p, k)
    ensures RepairLine(Assembled(p), mid) == Cell(Spaces(2) + Tag(StepTag(mid, k)), p.title, 52, p.word)
  {
    LabelFound(k, STEPS);
    hide StepLabel, Cell, StepOfLabel, Strip, Lower, StatusWord, EndingStatus, Bracketed, Assembled, StepTag, Tag,
         Blanks;
    TaglessStrips(p, k);
    TaglessFront(p.title, p.gap, p.word);
  }

  lemma NotBracketed(lead: string, rest: string)
    requires Blanks(lead) && rest != "" && IsLetter(rest[0])
    ensures !Bracketed(lead + rest)
  {
    RunIs(lead, rest, IsBlank);
  }

  /** Every line that the repair changes is one that has lost its tag. */
  lemma RepairsOnlyTagless(line: string, mid: string) returns (p: Parts, k: nat)
    requires RepairLine(line, mid) != line
    ensures Tagless(p, k) && Assembled(p) == line
  {
    hide Strip, EndingStatus, StepOfLabel, Cell, Lower, StepLabel, Bracketed, StatusWord;
    var core := Strip(line);
    var lead, trail := StripParts(line);
    EndingParts(core);
    var word := EndingStatus(core).value;
    var front := core[..|core| - |word|];
    var title := Strip(front);
    var a, gap := StripParts(front);
    LabelOf(Lower(title), STEPS);
    k := StepOfLabel(Lower(title), STEPS).value;
    LabelTight(k);
    SameLetters(title, StepLabel(k));
    assert a == "";
    assert front == title + gap;
    p := Parts(lead, title, gap, word, trail);
  }
}
