/** The progress file of a workplan, character by character: the printer, the parser,
    the in-place updater in its old and its corrected form, and the repairer. */
module Progress {
  import opened Wrappers
  import opened Text

  // ----- Statuses -----

  /** `issue` holds the digits of the blocking issue, if one is named. */
  datatype Status = Done | InProgress | NotStarted | Blocked(issue: string) | Skipped

  function StatusText(st: Status): string {
    match st
    case Done => "DONE"
    case InProgress => "IN_PROGRESS"
    case NotStarted => "NOT_STARTED"
    case Blocked(issue) => if issue == "" then "BLOCKED" else "BLOCKED[ISS-" + issue + "]"
    case Skipped => "SKIPPED"
  }

  ghost predicate GoodStatus(st: Status) {
    st.Blocked? ==> forall i :: 0 <= i < |st.issue| ==> IsDigit(st.issue[i])
  }

  /** The status word that a text starts with, in any case. */
  function StatusOf(s: string): Option<Status> {
    if StartsUpper(s, "DONE") then Some(Done)
    else if StartsUpper(s, "IN_PROGRESS") then Some(InProgress)
    else if StartsUpper(s, "NOT_STARTED") then Some(NotStarted)
    else if StartsUpper(s, "BLOCKED") then Some(Blocked(IssueOf(s[7..])))
    else if StartsUpper(s, "SKIPPED") then Some(Skipped)
    else None
  }

  function IssueOf(s: string): string {
    if !StartsUpper(s, "[ISS-") then ""
    else
      var n := Run(s[5..], IsDigit);
      if n > 0 && 5 + n < |s| && s[5 + n] == ']' then s[5..5 + n] else ""
  }

  // ----- Steps -----

  const STEPS := 8

  function StepId(k: nat): string
    requires k < STEPS
  {
    ["S1", "S2", "S3", "S4", "S5", "S6", "S7", "S8"][k]
  }

  function StepLabel(k: nat): string
    requires k < STEPS
  {
    match k
    case 0 => "UNDERSTAND -- review spec"
    case 1 => "INTERFACE FIRST -- define contracts"
    case 2 => "RED -- write failing tests"
    case 3 => "GREEN -- implement"
    case 4 => "QUALITY GATE -- format/lint/type/coverage"
    case 5 => "REFACTOR"
    case 6 => "INTEGRATION -- integration tests"
    case _ => "REVIEW -- checklist sign-off"
  }

  function StepTag(mid: string, k: nat): string
    requires k < STEPS
  {
    mid + "-" + StepId(k)
  }

  // ----- Printing -----

  function Tag(id: string): string { "[" + id + "]" }

  /** A label padded to `width`, then two spaces. */
  function Field(title: string, width: nat): string {
    title + Spaces((if |title| < width then width - |title| else 0) + 2)
  }

  /** Prefix, blank, padded label, status word: the shape of milestone and step lines. */
  function Cell(pre: string, title: string, width: nat, text: string): string {
    pre + " " + Field(title, width) + text
  }

  function MilestoneLine(id: string, title: string, st: Status): string {
    Cell(Tag(id), title, 58, StatusText(st))
  }

  function StepLine(mid: string, k: nat, st: Status): string
    requires k < STEPS
  {
    Cell(Spaces(2) + Tag(StepTag(mid, k)), StepLabel(k), 52, StatusText(st))
  }

  /** What the old updater left of a step line: its tag is gone. */
  function DamagedLine(k: nat, st: Status): string
    requires k < STEPS
  {
    Cell(Spaces(2), StepLabel(k), 52, StatusText(st))
  }

  function HeaderLine(key: string, value: string): string { "# " + key + ": " + value }

  // ----- Parsing -----

  datatype Entry = Entry(id: string, title: string, status: Status, steps: seq<(string, Status)>)

  datatype Parsed = Parsed(updated: string, milestone: string, step: string, entries: seq<Entry>)

  const NOTHING := Parsed("unknown", "M0", "STEP 1", [])

  predicate IsKeyChar(c: char) { IsLetter(c) || c == ' ' }

  /** Key, stripped and in lower case, and stripped value of a header line. */
  function HeaderOf(line: string): Option<(string, string)> {
    if !Starts(line, "#") then None
    else
      var n := Run(line[1..], IsBlank);
      var rest := line[1 + n..];
      var k := Run(rest, IsKeyChar);
      if n > 0 && (k > 0 || (n > 1 && line[n] == ' ')) && k + 1 < |rest| && rest[k] == ':'
      then Some((Lower(Strip(rest[..k])), Strip(rest[k + 1..]))) else None
  }

  /** A status word after at least two blanks. */
  predicate StatusHere(s: string, j: nat) {
    2 <= j < |s| && IsBlank(s[j - 1]) && IsBlank(s[j - 2]) && StatusOf(s[j..]).Some?
  }

  /** Label and status after the tag that ends before `e`: the blanks after the tag are
      taken greedily and the label lazily, so the first status word counts that follows
      two blanks and a non-empty label. */
  function FieldAndStatus(line: string, e: nat): Option<(string, Status)>
    requires e <= |line|
  {
    var m := e + Run(line[e..], IsBlank);
    if m == e then None
    else
      match Find(line, m + 3, StatusHere)
      case Some(j) =>
        if m <= j < |line| && StatusOf(line[j..]).Some? then Some((Strip(line[m..j]), StatusOf(line[j..]).value))
        else None
      case None => if m >= e + 4 && StatusOf(line[m..]).Some? then Some(("", StatusOf(line[m..]).value)) else None
  }

  /** Length of a milestone id (M, digits, optional letter) at the start of `s`; 0 if none. */
  function IdLength(s: string): (n: nat)
    ensures n <= |s|
  {
    if s == "" || Up(s[0]) != 'M' then 0
    else
      var d := Run(s[1..], IsDigit);
      if d == 0 then 0 else if 1 + d < |s| && IsLetter(s[1 + d]) then 2 + d else 1 + d
  }

  function MilestoneOf(line: string): Option<(string, string, Status)> {
    if !Starts(line, "[") then None
    else
      var n := IdLength(line[1..]);
      if n == 0 || 1 + n >= |line| || line[1 + n] != ']' then None
      else
        match FieldAndStatus(line, 2 + n)
        case None => None
        case Some((title, st)) => Some((line[1..1 + n], title, st))
  }

  predicate IsAlnum(c: char) { IsLetter(c) || IsDigit(c) }

  /** Bare step id and status of a step line. */
  function StepOf(line: string): Option<(string, Status)> {
    var lead := Run(line, IsBlank);
    if lead == 0 || !Starts(line[lead..], "[") then None
    else
      var a := Run(line[lead + 1..], IsAlnum);
      var s := line[lead + 1 + a..];
      if a == 0 || |s| < 2 || s[0] != '-' || Up(s[1]) != 'S' then None
      else
        var d := Run(s[2..], IsDigit);
        if d == 0 || 2 + d >= |s| || s[2 + d] != ']' then None
        else
          match FieldAndStatus(line, lead + 1 + a + 3 + d)
          case None => None
          case Some((_, st)) => Some((s[1..2 + d], st))
  }

  function WithHeader(p: Parsed, key: string, value: string): Parsed {
    if key == "last updated" then p.(updated := value)
    else if key == "active milestone" then p.(milestone := value)
    else if key == "active step" then p.(step := value)
    else p
  }

  function WithStep(p: Parsed, sid: string, st: Status): Parsed {
    if p.entries == [] then p
    else
      var n := |p.entries| - 1;
      p.(entries := p.entries[..n] + [p.entries[n].(steps := p.entries[n].steps + [(sid, st)])])
  }

  /** The parser reads one more line; steps belong to the latest milestone. */
  function Feed(p: Parsed, line: string): Parsed {
    match HeaderOf(line)
    case Some((key, value)) => WithHeader(p, key, value)
    case None =>
      match MilestoneOf(line)
      case Some((id, title, st)) => p.(entries := p.entries + [Entry(id, title, st, [])])
      case None =>
        match StepOf(line)
        case Some((sid, st)) => WithStep(p, sid, st)
        case None => p
  }

  function Parse(lines: seq<string>): Parsed {
    if lines == [] then NOTHING else Feed(Parse(lines[..|lines| - 1]), lines[|lines| - 1])
  }

  // ----- Updating -----

  const OPEN_WORD := 11

  /** One of the two words that an update replaces; both have OPEN_WORD letters. */
  predicate OpenWord(s: string, both: bool) { Starts(s, "NOT_STARTED") || (both && Starts(s, "IN_PROGRESS")) }

  function WordHere(both: bool): (string, nat) -> bool {
    (s: string, j: nat) => j <= |s| && OpenWord(s[j..], both)
  }

  /** The tag, after white space if `spaced`; a line break before the line is white space
      unless the line is the first one. */
  function TagHere(tag: string, spaced: bool, first: bool): (string, nat) -> bool {
    (s: string, i: nat) =>
      i <= |s| && Starts(s[i..], tag) && (spaced ==> if i == 0 then !first else i <= |s| && IsBlank(s[i - 1]))
  }

  /** Regular-expression substitution within a line: after the tag and at least one more
      character, the first open word becomes `word`; the tag is kept or dropped. */
  function Sub(line: string, tag: string, both: bool, word: string, keep: bool, spaced: bool, first: bool): string
    decreases |line|
  {
    match Find(line, 0, TagHere(tag, spaced, first))
    case None => line
    case Some(i) =>
      match Find(line, i + |tag| + 1, WordHere(both))
      case None => line
      case Some(j) =>
        if i + |tag| < j && j + OPEN_WORD <= |line|
        then line[..i] + (if keep then tag else "") + line[i + |tag|..j] + word
             + Sub(line[j + OPEN_WORD..], tag, both, word, keep, spaced, true)
        else line
  }

  function SubHeader(line: string, prefix: string, value: string): string {
    if Starts(line, prefix) then prefix + " " + value else line
  }

  /** Value of the active-step header after step `c` of milestone `mid`. */
  function NextHeader(mid: string, c: nat): string
    requires c < STEPS
  {
    if c + 1 < STEPS then "STEP " + [(('1' as int) + c + 1) as char] + " -- " + StepLabel(c + 1) + " (" + mid + ")"
    else mid + " COMPLETE -- advance Active milestone"
  }

  /** One line after step `c` of `mid` is completed, by the corrected updater. */
  function AdvanceLine(line: string, first: bool, mid: string, c: nat, now: string): string
    requires c < STEPS
  {
    var l1 := Sub(line, Tag(StepTag(mid, c)), true, StatusText(Done), true, true, first);
    var l2 := SubHeader(l1, "# Last updated:", now);
    if c + 1 < STEPS then
      var l3 := SubHeader(l2, "# Active step:", NextHeader(mid, c));
      Sub(l3, Tag(StepTag(mid, c + 1)), false, StatusText(InProgress), true, true, first)
    else
      var l3 := Sub(l2, Tag(mid), true, StatusText(Done), true, false, first);
      SubHeader(l3, "# Active step:", NextHeader(mid, c))
  }

  /** The same by the old updater, which drops the tag of the completed step. */
  function OldAdvanceLine(line: string, first: bool, mid: string, c: nat, now: string): string
    requires c < STEPS
  {
    var l1 := Sub(line, Tag(StepTag(mid, c)), true, StatusText(Done), false, false, first);
    var l2 := SubHeader(l1, "# Last updated:", now);
    if c + 1 < STEPS then
      var l3 := SubHeader(l2, "# Active step:", NextHeader(mid, c));
      Sub(l3, Tag(StepTag(mid, c + 1)), false, StatusText(InProgress), true, false, first)
    else
      var l3 := Sub(l2, Tag(mid), true, StatusText(Done), true, false, first);
      SubHeader(l3, "# Active step:", NextHeader(mid, c))
  }

  function Advance(lines: seq<string>, mid: string, c: nat, now: string): seq<string>
    requires c < STEPS
  {
    seq(|lines|, i requires 0 <= i < |lines| => AdvanceLine(lines[i], i == 0, mid, c, now))
  }

  function OldAdvance(lines: seq<string>, mid: string, c: nat, now: string): seq<string>
    requires c < STEPS
  {
    seq(|lines|, i requires 0 <= i < |lines| => OldAdvanceLine(lines[i], i == 0, mid, c, now))
  }

  // ----- Repairing -----

  /** The milestone id of a milestone line as the repairer reads it: digits only. */
  function RepairId(line: string): Option<string> {
    if !Starts(line, "[M") then None
    else
      var d := Run(line[2..], IsDigit);
      if d > 0 && 2 + d < |line| && line[2 + d] == ']' then Some(line[1..2 + d]) else None
  }

  /** The status word at the very end of a text. */
  function EndingStatus(s: string): Option<string> {
    if EndsUpper(s, "DONE") then Some(s[|s| - 4..])
    else if EndsUpper(s, "IN_PROGRESS") then Some(s[|s| - 11..])
    else if EndsUpper(s, "NOT_STARTED") then Some(s[|s| - 11..])
    else if EndsUpper(s, "BLOCKED") then Some(s[|s| - 7..])
    else if EndsUpper(s, "SKIPPED") then Some(s[|s| - 7..])
    else None
  }

  predicate EndsUpper(s: string, w: string) { |w| <= |s| && Upper(s[|s| - |w|..]) == w }

  /** An indented tag: the line is not damaged. */
  predicate Bracketed(line: string) {
    var lead := Run(line, IsBlank);
    lead > 0 && lead + 2 < |line| && line[lead] == '[' && Up(line[lead + 1]) == 'M' && IsDigit(line[lead + 2])
  }

  /** The step whose title is `key` in lower case; of equal labels the last one. */
  function StepOfLabel(key: string, n: nat): Option<nat>
    requires n <= STEPS
  {
    if n == 0 then None
    else if Lower(StepLabel(n - 1)) == key then Some(n - 1)
    else StepOfLabel(key, n - 1)
  }

  /** The repaired form of one line below milestone `mid`. */
  function RepairLine(line: string, mid: string): string {
    var stripped := Strip(line);
    match EndingStatus(stripped)
    case None => line
    case Some(word) =>
      if Bracketed(line) || |stripped| <= 10 || |word| > |stripped| then line
      else
        var title := Strip(stripped[..|stripped| - |word|]);
        match StepOfLabel(Lower(title), STEPS)
        case None => line
        case Some(k) => if k < STEPS then Cell(Spaces(2) + Tag(StepTag(mid, k)), title, 52, word) else line
  }

  /** Latest milestone id seen by the repairer. */
  function RepairMid(lines: seq<string>): string {
    if lines == [] then "M0"
    else
      match RepairId(lines[|lines| - 1])
      case Some(id) => id
      case None => RepairMid(lines[..|lines| - 1])
  }

  function Repair(lines: seq<string>): seq<string> {
    if lines == [] then []
    else
      var n := |lines| - 1;
      Repair(lines[..n])
      + [if RepairId(lines[n]).Some? then lines[n] else RepairLine(lines[n], RepairMid(lines[..n]))]
  }
}
