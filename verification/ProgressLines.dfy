/** How the parser, the updaters and the repairer act on single well-formed lines. */
module ProgressLines {
  import opened Wrappers
  import opened Text
  import opened Progress

  // ----- The common shape of milestone and step lines -----

  function Padding(title: string, width: nat): nat { (if |title| < width then width - |title| else 0) + 2 }

  /** Position of the status word. */
  function TextAt(pre: string, title: string, width: nat): nat { |pre| + 1 + |title| + Padding(title, width) }

  lemma CellAt(pre: string, title: string, width: nat, text: string)
    ensures var line, m, j := Cell(pre, title, width, text), |pre| + 1, TextAt(pre, title, width);
            && |line| == j + |text|
            && line[..|pre|] == pre && line[|pre|] == ' '
            && (forall i :: 0 <= i < |title| ==> line[m + i] == title[i])
            && (forall i :: m + |title| <= i < j ==> line[i] == ' ')
            && line[j..] == text
            && line[m..j] == Field(title, width)
  {
  }

  /** What follows the prefix of a line. */
  function After(title: string, width: nat, text: string): string { " " + Field(title, width) + text }

  lemma CellSplit(pre: string, title: string, width: nat, text: string)
    ensures Cell(pre, title, width, text) == pre + After(title, width, text)
  {
    hide Field;
  }

  lemma CellText(pre: string, title: string, width: nat, text: string)
    ensures var line, t := Cell(pre, title, width, text), TextAt(pre, title, width);
            |pre| < t && |line| == t + |text| && line[t..] == text
  {
  }

  /** A title as printed: no double blanks, no brackets and no underscores. */
  ghost predicate GoodTitle(title: string) {
    && Tight(title)
    && (forall i :: 0 <= i < |title| ==> title[i] != '[' && title[i] != ']' && title[i] != '_')
    && (forall i :: 0 < i < |title| ==> !(IsBlank(title[i - 1]) && IsBlank(title[i])))
  }

  // ----- Status words -----

  lemma FirstLetter(s: string, w: string)
    requires w != "" && StartsUpper(s, w)
    ensures s != "" && Up(s[0]) == w[0]
  {
    assert Upper(s[..|w|])[0] == Up(s[0]);
  }

  lemma StatusNeedsLetter(s: string)
    ensures StatusOf(s).Some? ==> s != "" && IsLetter(s[0])
  {
    hide StartsUpper, IssueOf;
    if StartsUpper(s, "DONE") { FirstLetter(s, "DONE"); }
    if StartsUpper(s, "IN_PROGRESS") { FirstLetter(s, "IN_PROGRESS"); }
    if StartsUpper(s, "NOT_STARTED") { FirstLetter(s, "NOT_STARTED"); }
    if StartsUpper(s, "BLOCKED") { FirstLetter(s, "BLOCKED"); }
    if StartsUpper(s, "SKIPPED") { FirstLetter(s, "SKIPPED"); }
  }

  lemma IssueOfText(digits: string)
    requires digits != "" && forall i :: 0 <= i < |digits| ==> IsDigit(digits[i])
    ensures IssueOf("[ISS-" + digits + "]") == digits
  {
    var s := "[ISS-" + digits + "]";
    assert s[..5] == "[ISS-";
    assert Upper(s[..5]) == "[ISS-";
    assert s[5..] == digits + "]";
    RunIs(digits, "]", IsDigit);
  }

  /** The parser reads back every printed status. */
  lemma StatusOfText(st: Status)
    requires GoodStatus(st)
    ensures StatusOf(StatusText(st)) == Some(st)
  {
    var s := StatusText(st);
    match st
    case Done => assert s[..4] == "DONE" && Upper(s[..4]) == "DONE";
    case InProgress =>
      assert Upper(s[..4]) != "DONE" by { assert Upper(s[..4])[0] == 'I'; }
      assert s[..11] == s && Upper(s[..11]) == s;
    case NotStarted =>
      assert Upper(s[..4]) != "DONE" by { assert Upper(s[..4])[0] == 'N'; }
      assert Upper(s[..11]) != "IN_PROGRESS" by { assert Upper(s[..11])[0] == 'N'; }
      assert s[..11] == s && Upper(s[..11]) == s;
    case Blocked(issue) => StatusOfBlocked(issue);
    case Skipped =>
      assert Upper(s[..4]) != "DONE" by { assert Upper(s[..4])[0] == 'S'; }
      assert Upper(s[..7]) != "BLOCKED" by { assert Upper(s[..7])[0] == 'S'; }
      assert s[..7] == s && Upper(s[..7]) == s;
  }

  lemma StatusOfBlocked(issue: string)
    requires GoodStatus(Blocked(issue))
    ensures StatusOf(StatusText(Blocked(issue))) == Some(Blocked(issue))
  {
    var s := StatusText(Blocked(issue));
    assert s[..7] == "BLOCKED" && Upper(s[..7]) == "BLOCKED";
    assert Upper(s[..4]) != "DONE" by { assert Upper(s[..4])[0] == 'B'; }
    assert !StartsUpper(s, "IN_PROGRESS") by { if |s| >= 11 { assert Upper(s[..11])[0] == 'B'; } }
    assert !StartsUpper(s, "NOT_STARTED") by { if |s| >= 11 { assert Upper(s[..11])[0] == 'B'; } }
    if issue == "" {
      assert s[7..] == "";
    } else {
      assert s[7..] == "[ISS-" + issue + "]";
      IssueOfText(issue);
    }
  }

  // ----- Label and status of a line -----

  lemma NoEarlierStatus(pre: string, title: string, width: nat, text: string, j: nat)
    requires GoodTitle(title) && |pre| + 4 <= j < TextAt(pre, title, width)
    ensures !StatusHere(Cell(pre, title, width, text), j)
  {
    var line, m := Cell(pre, title, width, text), |pre| + 1;
    CellAt(pre, title, width, text);
    hide Cell;
    if j < m + |title| {
      assert line[j - 1] == title[j - 1 - m] && line[j - 2] == title[j - 2 - m];
    } else {
      StatusNeedsLetter(line[j..]);
      assert line[j..][0] == ' ';
    }
  }

  lemma StripField(title: string, width: nat)
    requires Tight(title)
    ensures Strip(Field(title, width)) == title
  {
    StripSpaces(0, title, Padding(title, width));
    assert Spaces(0) + title + Spaces(Padding(title, width)) == Field(title, width);
  }

  lemma BlanksAfterTag(pre: string, title: string, width: nat, text: string)
    requires GoodTitle(title)
    ensures var line := Cell(pre, title, width, text);
            |pre| <= |line| && Run(line[|pre|..], IsBlank) == 1
  {
    CellAt(pre, title, width, text);
    hide Cell;
    var line, m := Cell(pre, title, width, text), |pre| + 1;
    assert line[|pre|..] == " " + line[m..];
    assert line[m..][0] == line[m + 0] == title[0];
    RunIs(" ", line[m..], IsBlank);
  }

  lemma TitleOfCell(pre: string, title: string, width: nat, text: string)
    requires GoodTitle(title)
    ensures var line, t := Cell(pre, title, width, text), TextAt(pre, title, width);
            |pre| + 4 <= t <= |line| && Strip(line[|pre| + 1..t]) == title
  {
    CellAt(pre, title, width, text);
    StripField(title, width);
  }

  lemma StatusHereInCell(pre: string, title: string, width: nat, st: Status)
    requires GoodTitle(title) && GoodStatus(st)
    ensures var line, t := Cell(pre, title, width, StatusText(st)), TextAt(pre, title, width);
            t < |line| && StatusHere(line, t) && StatusOf(line[t..]) == Some(st)
  {
    CellAt(pre, title, width, StatusText(st));
    StatusOfText(st);
    StatusNeedsLetter(StatusText(st));
    hide StatusOf, StatusText, Cell;
  }

  lemma FindStatusIn(pre: string, title: string, width: nat, st: Status)
    requires GoodTitle(title) && GoodStatus(st)
    ensures Find(Cell(pre, title, width, StatusText(st)), |pre| + 4, StatusHere) == Some(TextAt(pre, title, width))
  {
    var text := StatusText(st);
    StatusHereInCell(pre, title, width, st);
    TitleOfCell(pre, title, width, text);
    forall i | |pre| + 4 <= i < TextAt(pre, title, width) ensures !StatusHere(Cell(pre, title, width, text), i) {
      NoEarlierStatus(pre, title, width, text, i);
    }
    hide Cell, StatusText, StatusHere, TextAt, GoodTitle;
    FindIs(Cell(pre, title, width, text), |pre| + 4, TextAt(pre, title, width), StatusHere);
  }

  /** The parser reads back title and status of a printed line. */
  lemma FieldParsed(pre: string, title: string, width: nat, st: Status)
    requires GoodTitle(title) && GoodStatus(st)
    ensures |pre| <= |Cell(pre, title, width, StatusText(st))|
    ensures FieldAndStatus(Cell(pre, title, width, StatusText(st)), |pre|) == Some((title, st))
  {
    hide Cell, StatusText, StatusHere, StatusOf, TextAt, GoodTitle, GoodStatus, Find, Strip, Run;
    BlanksAfterTag(pre, title, width, StatusText(st));
    StatusHereInCell(pre, title, width, st);
    FindStatusIn(pre, title, width, st);
    TitleOfCell(pre, title, width, StatusText(st));
  }

  // ----- Substitution -----

  /** Body of a tag that the updaters look for: it starts with M and has no brackets. */
  ghost predicate GoodTag(id: string) {
    id != "" && id[0] == 'M' && forall i :: 0 <= i < |id| ==> id[i] != '[' && id[i] != ']'
  }

  lemma StartsWithTag(s: string, x: string)
    requires x != ""
    ensures Starts(s, Tag(x)) <==>
              && |x| + 2 <= |s| && s[0] == '[' && s[1 + |x|] == ']'
              && (forall k :: 0 <= k < |x| ==> s[1 + k] == x[k])
    ensures Starts(s, Tag(x)) ==> s[1] == x[0]
  {
    if |x| + 2 <= |s| {
      assert s[..|x| + 2][0] == s[0] && s[..|x| + 2][1 + |x|] == s[1 + |x|];
      assert forall k :: 0 <= k < |x| ==> s[..|x| + 2][1 + k] == s[1 + k] && Tag(x)[1 + k] == x[k];
      if s[0] == '[' && s[1 + |x|] == ']' && forall k :: 0 <= k < |x| ==> s[1 + k] == x[k] {
        assert s[..|x| + 2] == Tag(x);
      }
    }
  }

  lemma SameTag(x: string, id: string, rest: string)
    requires GoodTag(x) && GoodTag(id)
    ensures Starts(Tag(id) + rest, Tag(x)) <==> x == id
  {
    var line := Tag(id) + rest;
    StartsWithTag(line, x);
    assert line[1 + |id|] == ']';
    assert forall k :: 0 <= k < |id| ==> line[1 + k] == id[k];
    if |x| < |id| {
      assert id[|x|] != ']';
    } else if |id| < |x| {
      assert x[|id|] != ']';
    }
  }

  lemma IssueAfterBracket(st: Status, i: nat)
    requires GoodStatus(st) && i + 1 < |StatusText(st)| && StatusText(st)[i] == '['
    ensures StatusText(st)[i + 1] == 'I'
  {
  }

  /** The brackets in a status word belong to an issue, not to a tag. */
  lemma NoTagInStatus(st: Status, i: nat, x: string)
    requires GoodStatus(st) && GoodTag(x) && i <= |StatusText(st)|
    ensures !Starts(StatusText(st)[i..], Tag(x))
  {
    var s := StatusText(st);
    StartsWithTag(s[i..], x);
    if i + 1 < |s| && s[i] == '[' {
      IssueAfterBracket(st, i);
    }
  }

  /** Before the status word, the only opening bracket is that of the tag. */
  lemma OneBracket(lead: nat, id: string, title: string, width: nat, text: string, i: nat)
    requires GoodTag(id) && GoodTitle(title) && i < TextAt(Spaces(lead) + Tag(id), title, width) && i != lead
    ensures var line := Cell(Spaces(lead) + Tag(id), title, width, text); i < |line| && line[i] != '['
  {
    var pre := Spaces(lead) + Tag(id);
    var line, m := Cell(pre, title, width, text), |pre| + 1;
    CellAt(pre, title, width, text);
    hide Cell;
    if i < |pre| {
      assert line[i] == line[..|pre|][i] == pre[i];
    } else if m <= i < m + |title| {
      assert line[i] == title[i - m];
    }
  }

  lemma TagInFront(lead: nat, id: string, title: string, width: nat, text: string, x: string)
    requires GoodTag(id) && GoodTag(x)
    ensures var line := Cell(Spaces(lead) + Tag(id), title, width, text);
            lead < |line| && (Starts(line[lead..], Tag(x)) <==> x == id)
  {
    var pre := Spaces(lead) + Tag(id);
    var line := Cell(pre, title, width, text);
    CellAt(pre, title, width, text);
    hide Cell;
    assert line == pre + line[|pre|..];
    assert line[lead..] == Tag(id) + line[|pre|..];
    SameTag(x, id, line[|pre|..]);
  }

  lemma NoTagBehind(pre: string, title: string, width: nat, st: Status, x: string, i: nat)
    requires GoodTag(x) && GoodStatus(st)
    requires TextAt(pre, title, width) <= i < |Cell(pre, title, width, StatusText(st))|
    ensures !Starts(Cell(pre, title, width, StatusText(st))[i..], Tag(x))
  {
    hide Cell, StatusText, TextAt, Starts;
    CellText(pre, title, width, StatusText(st));
    var line, t := Cell(pre, title, width, StatusText(st)), TextAt(pre, title, width);
    assert line[i..] == line[t..][i - t..];
    NoTagInStatus(st, i - t, x);
  }

  /** A tag occurs in a printed line exactly where it was printed. */
  lemma TagOnlyInFront(lead: nat, id: string, title: string, width: nat, st: Status, x: string, i: nat)
    requires GoodTag(id) && GoodTag(x) && GoodTitle(title) && GoodStatus(st)
    requires i < |Cell(Spaces(lead) + Tag(id), title, width, StatusText(st))|
    ensures var line := Cell(Spaces(lead) + Tag(id), title, width, StatusText(st));
            Starts(line[i..], Tag(x)) <==> i == lead && x == id
  {
    var pre, text := Spaces(lead) + Tag(id), StatusText(st);
    hide Cell, StatusText, Starts, GoodTitle, GoodStatus;
    if i == lead {
      TagInFront(lead, id, title, width, text, x);
    } else if i < TextAt(pre, title, width) {
      OneBracket(lead, id, title, width, text, i);
      StartsWithTag(Cell(pre, title, width, text)[i..], x);
    } else {
      NoTagBehind(pre, title, width, st, x, i);
    }
  }

  /** An open word has an underscore and no blanks. */
  lemma OpenWordShape(s: string, both: bool)
    ensures OpenWord(s, both) ==>
              && |s| >= OPEN_WORD && (s[2] == '_' || s[3] == '_')
              && forall k :: 0 <= k < OPEN_WORD ==> s[k] != ' '
  {
    if OpenWord(s, both) {
      assert forall k :: 0 <= k < OPEN_WORD ==> s[k] == s[..OPEN_WORD][k];
    }
  }

  lemma NoEarlierWord(pre: string, title: string, width: nat, text: string, both: bool, j: nat)
    requires GoodTitle(title) && |pre| < j < TextAt(pre, title, width)
    ensures !OpenWord(Cell(pre, title, width, text)[j..], both)
  {
    var line, m, t := Cell(pre, title, width, text), |pre| + 1, TextAt(pre, title, width);
    CellAt(pre, title, width, text);
    hide Cell, OpenWord;
    var s := line[j..];
    OpenWordShape(s, both);
    assert s[t - 1 - j] == line[t - 1] == ' ';
    assert forall k :: m <= k < t ==> line[k] != '_' by {
      assert forall k :: m <= k < m + |title| ==> line[k] == title[k - m];
    }
    if j + OPEN_WORD < t {
      assert s[2] == line[j + 2] && s[3] == line[j + 3];
    }
  }

  lemma OpenStatus(st: Status, both: bool)
    ensures OpenWord(StatusText(st), both) <==> st == NotStarted || (both && st == InProgress)
    ensures st == NotStarted || st == InProgress ==> |StatusText(st)| == OPEN_WORD
  {
    var s := StatusText(st);
    if |s| >= 11 {
      assert s[..11][0] == s[0];
    }
    if |s| == 11 {
      assert s[..11] == s;
    }
  }

  lemma NoLaterWord(st: Status, i: nat, both: bool)
    requires GoodStatus(st) && 0 < i <= |StatusText(st)|
    ensures !OpenWord(StatusText(st)[i..], both)
  {
    var s := StatusText(st);
    OpenWordShape(s[i..], both);
    if st.Blocked? && |s[i..]| >= OPEN_WORD {
      assert s[i..][2] == s[i + 2] && s[i..][3] == s[i + 3];
    }
  }

  lemma FindTagIn(lead: nat, id: string, title: string, width: nat, st: Status, x: string, spaced: bool, first: bool)
    requires GoodTag(id) && GoodTag(x) && GoodTitle(title) && GoodStatus(st)
    requires spaced && x == id ==> lead > 0
    ensures var line := Cell(Spaces(lead) + Tag(id), title, width, StatusText(st));
            Find(line, 0, TagHere(Tag(x), spaced, first)) == if x == id then Some(lead) else None
  {
    var pre, text := Spaces(lead) + Tag(id), StatusText(st);
    var line, p := Cell(pre, title, width, text), TagHere(Tag(x), spaced, first);
    CellAt(pre, title, width, text);
    forall i | 0 <= i < |line| ensures Starts(line[i..], Tag(x)) <==> i == lead && x == id {
      TagOnlyInFront(lead, id, title, width, st, x, i);
    }
    hide Cell, Starts, StatusText;
    if x == id {
      assert lead > 0 ==> line[lead - 1] == pre[lead - 1] == ' ';
      FindIs(line, 0, lead, p);
    } else {
      FindNone(line, 0, p);
    }
  }

  lemma NoWordAfter(pre: string, title: string, width: nat, st: Status, both: bool, j: nat)
    requires GoodStatus(st) && TextAt(pre, title, width) < j <= |Cell(pre, title, width, StatusText(st))|
    ensures !OpenWord(Cell(pre, title, width, StatusText(st))[j..], both)
  {
    hide Cell, OpenWord, StatusText, TextAt;
    CellText(pre, title, width, StatusText(st));
    var line, t := Cell(pre, title, width, StatusText(st)), TextAt(pre, title, width);
    assert line[j..] == line[t..][j - t..];
    NoLaterWord(st, j - t, both);
  }

  lemma FindWordIn(pre: string, title: string, width: nat, st: Status, both: bool)
    requires GoodTitle(title) && GoodStatus(st)
    ensures var line := Cell(pre, title, width, StatusText(st));
            Find(line, |pre| + 1, WordHere(both)) ==
            if OpenWord(StatusText(st), both) then Some(TextAt(pre, title, width)) else None
  {
    hide Cell, OpenWord, StatusText, GoodTitle, GoodStatus, TextAt;
    var text := StatusText(st);
    var line, t := Cell(pre, title, width, text), TextAt(pre, title, width);
    CellText(pre, title, width, text);
    forall j | |pre| < j < t ensures !OpenWord(line[j..], both) {
      NoEarlierWord(pre, title, width, text, both, j);
    }
    forall j | t < j <= |line| ensures !OpenWord(line[j..], both) {
      NoWordAfter(pre, title, width, st, both, j);
    }
    OpenStatus(st, both);
    if OpenWord(text, both) {
      FindIs(line, |pre| + 1, t, WordHere(both));
    } else {
      FindNone(line, |pre| + 1, WordHere(both));
    }
  }

  /** Unfolds a substitution whose word ends the line. */
  lemma SubOnce(line: string, tag: string, both: bool, word: string, keep: bool, spaced: bool, first: bool, i: nat,
                j: nat)
    requires tag != "" && Find(line, 0, TagHere(tag, spaced, first)) == Some(i)
    requires Find(line, i + |tag| + 1, WordHere(both)) == Some(j)
    requires i + |tag| < j && j + OPEN_WORD == |line|
    ensures Sub(line, tag, both, word, keep, spaced, first) ==
            line[..i] + (if keep then tag else "") + line[i + |tag|..j] + word
  {
    hide Find;
    SubNothing("", tag, both, word, keep, spaced, true);
    assert line[j + OPEN_WORD..] == "";
  }

  lemma Reassemble(lead: nat, id: string, title: string, width: nat, text: string, word: string, kept: string)
    ensures var pre := Spaces(lead) + Tag(id);
            var line, t := Cell(pre, title, width, text), TextAt(pre, title, width);
            && |pre| < t <= |line|
            && line[..lead] + kept + line[|pre|..t] + word == Cell(Spaces(lead) + kept, title, width, word)
  {
    var pre := Spaces(lead) + Tag(id);
    var line, t := Cell(pre, title, width, text), TextAt(pre, title, width);
    CellAt(pre, title, width, text);
    assert line[..lead] == line[..|pre|][..lead] == Spaces(lead);
    assert line[|pre|..t] == " " + Field(title, width);
  }

  /** Substitution on a printed line replaces the status of the tagged line, if open. */
  lemma SubCell(lead: nat, id: string, title: string, width: nat, st: Status,
                x: string, both: bool, word: string, keep: bool, spaced: bool, first: bool)
    requires GoodTag(id) && GoodTag(x) && GoodTitle(title) && GoodStatus(st)
    requires spaced && x == id ==> lead > 0
    ensures var line := Cell(Spaces(lead) + Tag(id), title, width, StatusText(st));
            Sub(line, Tag(x), both, word, keep, spaced, first) ==
            if x == id && OpenWord(StatusText(st), both)
            then Cell(Spaces(lead) + (if keep then Tag(id) else ""), title, width, word)
            else line
  {
    hide Cell, OpenWord, StatusText, Find, TextAt, GoodTitle, GoodStatus, GoodTag;
    var pre, text := Spaces(lead) + Tag(id), StatusText(st);
    var line, t := Cell(pre, title, width, text), TextAt(pre, title, width);
    CellText(pre, title, width, text);
    FindTagIn(lead, id, title, width, st, x, spaced, first);
    FindWordIn(pre, title, width, st, both);
    OpenStatus(st, both);
    if x == id && OpenWord(text, both) {
      hide Sub;
      SubOnce(line, Tag(x), both, word, keep, spaced, first, lead, t);
      Reassemble(lead, id, title, width, text, word, if keep then Tag(id) else "");
    }
  }

  lemma SubNothing(line: string, tag: string, both: bool, word: string, keep: bool, spaced: bool, first: bool)
    requires tag != "" && forall i :: 0 <= i < |line| ==> line[i] != tag[0]
    ensures Sub(line, tag, both, word, keep, spaced, first) == line
  {
    forall i | 0 <= i < |line| ensures !Starts(line[i..], tag) {
      if |tag| <= |line| - i {
        assert line[i..][..|tag|][0] == line[i];
      }
    }
    FindNone(line, 0, TagHere(tag, spaced, first));
  }
}
