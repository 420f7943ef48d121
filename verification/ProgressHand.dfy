/** Lines that were edited by hand: any number of blanks, any case, any step number. */
module ProgressHand {
  import opened Wrappers
  import opened Text
  import opened Progress
  import opened ProgressLines
  import opened ProgressRows
  import opened ProgressDamage

  // ----- Status words -----

  lemma Prefix(w: string, rest: string, u: string)
    requires |w| == |u|
    ensures StartsUpper(w + rest, u) <==> Upper(w) == u
    ensures (w + rest)[|w|..] == rest
  {
    assert (w + rest)[..|w|] == w;
  }

  /** Texts that start with different letters do not start with the same word. */
  lemma OtherWord(s: string, u: string)
    requires s != "" && u != "" && Up(s[0]) != u[0]
    ensures !StartsUpper(s, u)
  {
    if |u| <= |s| {
      assert Upper(s[..|u|])[0] == Up(s[0]);
    }
  }

  /** A status word is recognised in any case, whatever follows it. */
  lemma StatusAnyCase(w: string, rest: string)
    ensures Upper(w) == "DONE" ==> StatusOf(w + rest) == Some(Done)
    ensures Upper(w) == "IN_PROGRESS" ==> StatusOf(w + rest) == Some(InProgress)
    ensures Upper(w) == "NOT_STARTED" ==> StatusOf(w + rest) == Some(NotStarted)
    ensures Upper(w) == "BLOCKED" ==> StatusOf(w + rest) == Some(Blocked(IssueOf(rest)))
    ensures Upper(w) == "SKIPPED" ==> StatusOf(w + rest) == Some(Skipped)
  {
    if w != "" {
      assert Upper(w)[0] == Up(w[0]) && (w + rest)[0] == w[0];
      WordDecides(w, rest, "DONE");
      WordDecides(w, rest, "IN_PROGRESS");
      WordDecides(w, rest, "NOT_STARTED");
      WordDecides(w, rest, "BLOCKED");
      WordDecides(w, rest, "SKIPPED");
      hide StartsUpper, IssueOf;
    }
  }

  lemma WordDecides(w: string, rest: string, u: string)
    requires w != "" && u != ""
    ensures Upper(w) == u ==> StartsUpper(w + rest, u) && |w| == |u| && (w + rest)[|u|..] == rest
    ensures Upper(w)[0] != u[0] ==> !StartsUpper(w + rest, u)
  {
    assert |Upper(w)| == |w| && (w + rest)[0] == w[0];
    if |w| == |u| {
      Prefix(w, rest, u);
    }
    if Upper(w)[0] != u[0] {
      OtherWord(w + rest, u);
    }
  }

  // ----- Label and status -----

  /** A label without two blanks in a row. */
  ghost predicate Single(title: string) {
    Tight(title) && forall i :: 0 < i < |title| ==> !(IsBlank(title[i - 1]) && IsBlank(title[i]))
  }

  ghost predicate Fielded(b1: string, title: string, b2: string, text: string) {
    && b1 != "" && Blanks(b1) && Single(title) && |b2| >= 2 && Blanks(b2) && StatusOf(text).Some?
  }

  lemma FieldAt(pre: string, b1: string, title: string, b2: string, text: string)
    requires Fielded(b1, title, b2, text)
    ensures var line, m := pre + b1 + title + b2 + text, |pre| + |b1|;
            var t := m + |title| + |b2|;
            && t < |line| && line[t..] == text && line[m..t] == title + b2 && line[|pre|..] == b1 + line[m..]
            && (forall i :: m <= i < m + |title| ==> line[i] == title[i - m])
            && (forall i :: m + |title| <= i < t ==> IsBlank(line[i]))
  {
    StatusNeedsLetter(text);
    hide StatusOf;
    var line, m := pre + b1 + title + b2 + text, |pre| + |b1|;
    assert forall i :: m + |title| <= i < m + |title| + |b2| ==> line[i] == b2[i - m - |title|];
  }

  lemma NoneBefore(pre: string, b1: string, title: string, b2: string, text: string, j: nat)
    requires Fielded(b1, title, b2, text)
    requires |pre| + |b1| + 3 <= j < |pre| + |b1| + |title| + |b2|
    ensures !StatusHere(pre + b1 + title + b2 + text, j)
  {
    hide StatusOf;
    var line, m := pre + b1 + title + b2 + text, |pre| + |b1|;
    FieldAt(pre, b1, title, b2, text);
    if j < m + |title| {
      assert line[j - 1] == title[j - 1 - m] && line[j - 2] == title[j - 2 - m];
      assert !(IsBlank(title[j - 2 - m]) && IsBlank(title[j - 1 - m]));
    } else {
      StatusNeedsLetter(line[j..]);
      assert line[j..][0] == line[j];
    }
  }

  /** Label and status are found whatever blanks stand around the label. */
  lemma FieldRead(pre: string, b1: string, title: string, b2: string, text: string)
    requires Fielded(b1, title, b2, text)
    ensures FieldAndStatus(pre + b1 + title + b2 + text, |pre|) == Some((title, StatusOf(text).value))
  {
    var line, m := pre + b1 + title + b2 + text, |pre| + |b1|;
    var t := m + |title| + |b2|;
    FieldAt(pre, b1, title, b2, text);
    hide StatusOf;
    assert StatusHere(line, t);
    forall j | m + 3 <= j < t ensures !StatusHere(line, j) {
      NoneBefore(pre, b1, title, b2, text, j);
    }
    FindIs(line, m + 3, t, StatusHere);
    assert line[m..][0] == title[0];
    RunIs(b1, line[m..], IsBlank);
    StripIs("", title, b2);
    assert "" + title + b2 == title + b2;
    hide StatusHere, Strip, Find, Run;
  }

  // ----- Milestones -----

  /** M, digits and at most one letter, in any case. */
  predicate AnyId(id: string) {
    && id != "" && Up(id[0]) == 'M' && DigitsOf(id) > 0
    && (|id| == 1 + DigitsOf(id) || (|id| == 2 + DigitsOf(id) && IsLetter(id[|id| - 1])))
  }

  lemma AnyIdLength(id: string, rest: string)
    requires AnyId(id)
    ensures IdLength(id + "]" + rest) == |id|
  {
    var s, d := id + "]" + rest, DigitsOf(id);
    RunHolds(id[1..], IsDigit);
    assert forall i :: 0 <= i < d ==> id[1..1 + d][i] == id[1..][i];
    assert s[1..] == id[1..1 + d] + (id[1 + d..] + "]" + rest);
    RunIs(id[1..1 + d], id[1 + d..] + "]" + rest, IsDigit);
  }

  /** The parser reads a milestone line with any spacing and case. */
  lemma ReadsMilestone(id: string, b1: string, title: string, b2: string, text: string)
    requires AnyId(id) && Fielded(b1, title, b2, text)
    ensures var line := Tag(id) + b1 + title + b2 + text;
            HeaderOf(line) == None && MilestoneOf(line) == Some((id, title, StatusOf(text).value))
  {
    hide HeaderOf, IdLength, FieldAndStatus, StatusOf, AnyId, Fielded;
    var line, rest := Tag(id) + b1 + title + b2 + text, b1 + title + b2 + text;
    assert line == "[" + (id + "]" + rest);
    FirstCharDecides(line);
    assert line[1..] == id + "]" + rest;
    AnyIdLength(id, rest);
    assert |id| > 0 by { AnyIdNotEmpty(id); }
    assert line[1 + |id|] == ']' && line[1..1 + |id|] == id && Starts(line, "[");
    FieldRead(Tag(id), b1, title, b2, text);
  }

  lemma AnyIdNotEmpty(id: string) requires AnyId(id) ensures |id| > 1 {}

  // ----- Steps -----

  /** S and digits, in any case. */
  predicate AnyStep(sid: string) { |sid| > 1 && Up(sid[0]) == 'S' && forall i :: 1 <= i < |sid| ==> IsDigit(sid[i]) }

  predicate AnyOwner(owner: string) { owner != "" && forall i :: 0 <= i < |owner| ==> IsAlnum(owner[i]) }

  lemma StepTagParts(lead: string, owner: string, sid: string, rest: string)
    requires lead != "" && Blanks(lead) && AnyOwner(owner) && AnyStep(sid)
    ensures var line, n, a := lead + Tag(owner + "-" + sid) + rest, |lead|, |owner|;
            && IsBlank(line[0]) && Run(line, IsBlank) == n && Starts(line[n..], "[")
            && Run(line[n + 1..], IsAlnum) == a && line[n + 1 + a..] == "-" + sid + "]" + rest
  {
    var line, n, a := lead + Tag(owner + "-" + sid) + rest, |lead|, |owner|;
    var inner := "-" + sid + "]" + rest;
    assert line == lead + ("[" + (owner + inner));
    RunIs(lead, "[" + (owner + inner), IsBlank);
    assert line[n + 1..] == owner + inner;
    RunIs(owner, inner, IsAlnum);
    assert line[n..][..1] == "[";
  }

  lemma StepDigits(sid: string, rest: string)
    requires AnyStep(sid)
    ensures var s := "-" + sid + "]" + rest;
            && |s| > 2 && s[0] == '-' && Up(s[1]) == 'S' && Run(s[2..], IsDigit) == |sid| - 1
            && 1 + |sid| < |s| && s[1 + |sid|] == ']' && s[1..1 + |sid|] == sid
  {
    var s := "-" + sid + "]" + rest;
    assert s[2..] == sid[1..] + ("]" + rest);
    RunIs(sid[1..], "]" + rest, IsDigit);
  }

  lemma StepOfParts(line: string, n: nat, a: nat, d: nat, s: string, title: string, st: Status)
    requires n > 0 && a > 0 && d > 0 && Run(line, IsBlank) == n && n + 1 + a <= |line| && Starts(line[n..], "[")
    requires Run(line[n + 1..], IsAlnum) == a && s == line[n + 1 + a..]
    requires 2 + d < |s| && s[0] == '-' && Up(s[1]) == 'S' && Run(s[2..], IsDigit) == d && s[2 + d] == ']'
    requires FieldAndStatus(line, n + 1 + a + 3 + d) == Some((title, st))
    ensures StepOf(line) == Some((s[1..2 + d], st))
  {
    hide Run, Starts, FieldAndStatus;
  }

  lemma TagSizes(lead: string, owner: string, sid: string)
    requires AnyOwner(owner) && AnyStep(sid)
    ensures |owner| > 0 && |sid| > 1 && |lead + Tag(owner + "-" + sid)| == |lead| + |owner| + |sid| + 3
  {
  }

  lemma ReadsTagged(lead: string, owner: string, sid: string, rest: string, title: string, st: Status)
    requires lead != "" && Blanks(lead) && AnyOwner(owner) && AnyStep(sid)
    requires var pre := lead + Tag(owner + "-" + sid); FieldAndStatus(pre + rest, |pre|) == Some((title, st))
    ensures var line := lead + Tag(owner + "-" + sid) + rest;
            HeaderOf(line) == None && MilestoneOf(line) == None && StepOf(line) == Some((sid, st))
  {
    hide HeaderOf, MilestoneOf, StepOf, FieldAndStatus, AnyStep, AnyOwner, Blanks, Run, Tag, Starts;
    var line := lead + Tag(owner + "-" + sid) + rest;
    TagSizes(lead, owner, sid);
    StepTagParts(lead, owner, sid, rest);
    StepDigits(sid, rest);
    FirstCharDecides(line);
    StepOfParts(line, |lead|, |owner|, |sid| - 1, "-" + sid + "]" + rest, title, st);
  }

  /** The parser reads a step line with any indentation, spacing, case and step number. */
  lemma ReadsStep(lead: string, owner: string, sid: string, b1: string, title: string, b2: string, text: string)
    requires lead != "" && Blanks(lead) && AnyOwner(owner) && AnyStep(sid) && Fielded(b1, title, b2, text)
    ensures var line := lead + Tag(owner + "-" + sid) + b1 + title + b2 + text;
            && HeaderOf(line) == None && MilestoneOf(line) == None
            && StepOf(line) == Some((sid, StatusOf(text).value))
  {
    hide HeaderOf, MilestoneOf, StepOf, FieldAndStatus, StatusOf, AnyStep, AnyOwner, Blanks, Tag;
    var pre, rest := lead + Tag(owner + "-" + sid), b1 + title + b2 + text;
    FieldRead(pre, b1, title, b2, text);
    hide Fielded;
    assert pre + b1 + title + b2 + text == pre + rest;
    ReadsTagged(lead, owner, sid, rest, title, StatusOf(text).value);
  }

  // ----- Headers and whole files -----

  /** The parser reads a header with any blanks in front of its key and around its value. */
  lemma ReadsHeader(blanks: string, key: string, value: string)
    requires blanks != "" && Blanks(blanks) && value != ""
    requires Tight(key) && forall i :: 0 <= i < |key| ==> IsKeyChar(key[i])
    ensures HeaderOf("#" + blanks + key + ":" + value) == Some((Lower(key), Strip(value)))
  {
    var line, rest := "#" + blanks + key + ":" + value, key + (":" + value);
    assert line[..1] == "#" && line[1..] == blanks + rest;
    RunIs(blanks, rest, IsBlank);
    assert line[1 + |blanks|..] == rest;
    RunIs(key, ":" + value, IsKeyChar);
    assert rest[..|key|] == "" + key + "" && rest[|key| + 1..] == value;
    StripIs("", key, "");
    hide Strip, Lower, Run;
  }

  predicate IsMilestone(line: string) { HeaderOf(line) == None && MilestoneOf(line).Some? }

  function MilestonesIn(lines: seq<string>): set<nat> { set i: nat | i < |lines| && IsMilestone(lines[i]) }

  lemma MilestonesNext(lines: seq<string>)
    requires lines != []
    ensures var n := |lines| - 1;
            |MilestonesIn(lines)| == |MilestonesIn(lines[..n])| + if IsMilestone(lines[n]) then 1 else 0
  {
    hide IsMilestone;
    var n := |lines| - 1;
    var before := MilestonesIn(lines[..n]);
    assert n !in before;
    assert MilestonesIn(lines) == if IsMilestone(lines[n]) then before + {n} else before;
  }

  lemma FeedEntries(p: Parsed, line: string)
    ensures |Feed(p, line).entries| == |p.entries| + if IsMilestone(line) then 1 else 0
  {
    hide HeaderOf, MilestoneOf, StepOf;
  }

  /** Steps belong to milestones: a file has as many entries as milestone lines, so steps above
      the first milestone are not read. */
  lemma {:induction false} EntriesAreMilestones(lines: seq<string>)
    ensures |Parse(lines).entries| == |MilestonesIn(lines)|
  {
    if lines != [] {
      hide Feed, IsMilestone, MilestonesIn;
      var n := |lines| - 1;
      EntriesAreMilestones(lines[..n]);
      FeedEntries(Parse(lines[..n]), lines[n]);
      MilestonesNext(lines);
    }
  }
}
