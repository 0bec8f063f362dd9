/** Loading and printing of files, app/iniparser.c. */
module IniFile {
  import opened Options
  import opened Dictionary
  import opened IniLine

  const ASCIILINESZ: nat := 1024

  // Loading.

  /** The characters up to and including the first newline, or all. */
  function LineLength(text: string): (n: nat)
    ensures n <= |text|
    ensures forall i :: 0 <= i < n - 1 ==> text[i] != '\n'
    ensures n < |text| ==> n > 0 && text[n - 1] == '\n'
  {
    if text == "" then 0 else if text[0] == '\n' then 1 else 1 + LineLength(text[1..])
  }

  /** How many characters fgets reads into a buffer of `size`: up to and including the
      first newline, all that is left, or as many as fit. */
  function FGets(text: string, size: nat): (n: nat)
    requires size > 1 && text != ""
    ensures 0 < n <= |text| && n < size
    ensures forall i :: 0 <= i < n - 1 ==> text[i] != '\n'
    ensures text[n - 1] == '\n' || n == |text| || n == size - 1
    ensures n == LineLength(text) || n == size - 1 < LineLength(text)
  {
    var n := LineLength(text);
    if n < size then n else size - 1
  }

  /** What has been loaded so far. */
  datatype Parsed = Parsed(section: string, slots: Slots, errs: nat)

  /** The effect of one line. */
  function Absorb(line: Line, p: Parsed): Parsed {
    match line
    case Empty => p
    case Comment => p
    case Section(name) =>
      var section := if name.Some? then name.value else p.section;
      Parsed(section, SetIn(p.slots, section, None), p.errs)
    case Value(key, val) => p.(slots := SetIn(p.slots, p.section + ":" + key, Some(val)))
    case Error => p.(errs := p.errs + 1)
  }

  /** What one turn of the loop of iniparser_load leaves: `rest` of the file, and what a
      trailing backslash left in the line buffer. */
  datatype Turn = TooLong | Next(rest: string, pending: string, parsed: Parsed)

  function OneTurn(text: string, pending: string, p: Parsed): (t: Turn)
    requires |pending| < ASCIILINESZ - 1 && text != ""
    ensures t.Next? ==> |t.rest| < |text| && |t.pending| < ASCIILINESZ - 1
  {
    var size := ASCIILINESZ - |pending|;
    var n := FGets(text, size);
    var line, rest := pending + text[..n], text[n..];
    if |line| <= 1 then Next(rest, pending, p)
    else if line[|line| - 1] != '\n' && n == size - 1 then TooLong
    else
      var cut := CutSpace(line);
      if cut != "" && cut[|cut| - 1] == '\\' then Next(rest, cut[..|cut| - 1], p)
      else Next(rest, "", Absorb(ParseLine(cut), p))
  }

  /** iniparser_load from there on. */
  function LoadFrom(text: string, pending: string, p: Parsed): Option<Slots>
    requires |pending| < ASCIILINESZ - 1
    decreases |text|
  {
    if text == "" then if p.errs > 0 then None else Some(p.slots)
    else
      match OneTurn(text, pending, p)
      case TooLong => None
      case Next(rest, pending', p') => LoadFrom(rest, pending', p')
  }

  function Load(text: string): Option<Slots> { LoadFrom(text, "", Parsed("", Empties(DICTMINSZ), 0)) }

  // Printing.

  predicate IsSection(x: Option<Item>) { x.Some? && ':' !in x.value.key }

  /** The keys without a colon, in slot order. */
  function Sections(s: Slots): seq<string> {
    if s == [] then []
    else Sections(s[..|s| - 1]) + if IsSection(s[|s| - 1]) then [s[|s| - 1].value.key] else []
  }

  predicate Belongs(x: Option<Item>, section: string) { x.Some? && section + ":" <= x.value.key }

  function Text(v: Option<string>): string { if v.Some? then v.value else "" }

  function EntryLine(x: Item, section: string): string
    requires section + ":" <= x.key
  {
    Printed(x.key[|section| + 1..], Text(x.val)) + "\n"
  }

  function Entries(s: Slots, section: string, j: nat): string
    requires j <= |s|
    decreases |s| - j
  {
    if j == |s| then ""
    else (if Belongs(s[j], section) then EntryLine(s[j].value, section) else "") + Entries(s, section, j + 1)
  }

  function DumpSection(s: Slots, section: string): string {
    if Find(s, 0, section) == |s| then ""
    else Bracketed(section) + "\n" + Entries(s, section, 0) + "\n"
  }

  function DumpSections(s: Slots, names: seq<string>): string {
    if names == [] then "" else DumpSection(s, names[0]) + DumpSections(s, names[1..])
  }

  function KeyLine(x: Item): string {
    Printed(x.key, if x.val.Some? then x.val.value else "(null)") + "\n"
  }

  /** Without a section, the keys are printed as they are; printf prints a NULL as (null). */
  function DumpKeys(s: Slots, j: nat): string
    requires j <= |s|
    decreases |s| - j
  {
    if j == |s| then ""
    else
      (if s[j].None? then "" else KeyLine(s[j].value)) + DumpKeys(s, j + 1)
  }

  function Dump(s: Slots): string {
    if Sections(s) == [] then DumpKeys(s, 0) else DumpSections(s, Sections(s))
  }

  // Well-formed dictionaries.

  /** A section name that is printed on a line that is read back. */
  predicate NameSafe(name: string) {
    name != "" && Trimmed(name) && ']' !in name && '\n' !in name && |name| + 3 < ASCIILINESZ
  }

  predicate EntrySafe(k: string, v: string) {
    && LineSafe(k, v) && '\n' !in k && '\n' !in v
    && (v != "" ==> v[|v| - 1] != '\\')
    && |k| + |v| + 4 < ASCIILINESZ
  }

  function Colon(key: string): (n: nat)
    ensures n <= |key| && ':' !in key[..n] && (n < |key| ==> key[n] == ':')
  {
    if key == "" || key[0] == ':' then 0 else 1 + Colon(key[1..])
  }

  ghost predicate ItemWellFormed(m: map<string, Option<string>>, key: string)
    requires key in m
  {
    var n := Colon(key);
    if n == |key| then m[key].None? && NameSafe(key)
    else key[..n] in m && m[key].Some? && EntrySafe(key[n + 1..], m[key].value)
  }

  ghost predicate WellFormed(m: map<string, Option<string>>) {
    forall key :: key in m ==> ItemWellFormed(m, key)
  }

  // One printed line at a time.

  lemma {:induction false} LineLengthIs(line: string, more: string)
    requires '\n' !in line
    ensures LineLength(line + "\n" + more) == |line| + 1
    decreases |line|
  {
    var text := line + "\n" + more;
    if line != "" {
      assert text[1..] == line[1..] + "\n" + more;
      assert text[0] == line[0];
      LineLengthIs(line[1..], more);
    }
  }

  lemma CutNewline(line: string)
    ensures CutSpace(line + "\n") == CutSpace(line)
  {
  }

  lemma StripOfCut(s: string)
    ensures Strip(CutSpace(s)) == Strip(s)
  {
    hide SkipSpace, CutSpace, Strip, IsSpace;
    var c := CutSpace(s);
    var a, b := StripParts(c);
    StripTrims(c);
    assert s == a + Strip(c) + (b + s[|c|..]);
    StripOf(a, Strip(c), b + s[|c|..]);
  }

  lemma ParseOfCut(s: string)
    ensures ParseLine(CutSpace(s)) == ParseLine(s)
  {
    hide CutSpace, Strip, ParseValue, Scan;
    StripOfCut(s);
  }

  lemma LoadTurn(text: string, pending: string, p: Parsed, t: Turn)
    requires |pending| < ASCIILINESZ - 1 && text != "" && t == OneTurn(text, pending, p) && t.Next?
    ensures LoadFrom(text, pending, p) == LoadFrom(t.rest, t.pending, t.parsed)
  {
  }

  /** What becomes of a line without its newline. */
  function Read(line: string, more: string, p: Parsed): Turn {
    var cut := CutSpace(line);
    if cut != "" && cut[|cut| - 1] == '\\' then Next(more, cut[..|cut| - 1], p)
    else Next(more, "", Absorb(ParseLine(line), p))
  }

  lemma TurnOf(text: string, pending: string, n: nat, line: string, p: Parsed)
    requires |pending| < ASCIILINESZ - 1 && text != "" && n == FGets(text, ASCIILINESZ - |pending|)
    requires pending + text[..n] == line + "\n" && line != ""
    ensures OneTurn(text, pending, p) == Read(line, text[n..], p)
  {
    hide CutSpace, FGets, ParseLine, Absorb;
    CutNewline(line);
    ParseOfCut(line);
  }

  lemma FGetsLine(line: string, more: string)
    requires '\n' !in line && |line| + 1 < ASCIILINESZ
    ensures FGets(line + "\n" + more, ASCIILINESZ) == |line| + 1
    ensures "" + (line + "\n" + more)[..|line| + 1] == line + "\n"
    ensures (line + "\n" + more)[|line| + 1..] == more
  {
    hide LineLength;
    LineLengthIs(line, more);
  }

  lemma TurnOfLine(line: string, more: string, p: Parsed)
    requires line != "" && '\n' !in line && |line| + 1 < ASCIILINESZ
    ensures OneTurn(line + "\n" + more, "", p) == Read(line, more, p)
  {
    hide CutSpace, FGets, ParseLine, Absorb, OneTurn, Read;
    FGetsLine(line, more);
    TurnOf(line + "\n" + more, "", |line| + 1, line, p);
  }

  lemma ReadContinued(line: string, more: string, p: Parsed)
    requires line != "" && '\n' !in line && |line| + 1 < ASCIILINESZ
    requires var cut := CutSpace(line); cut != "" && cut[|cut| - 1] == '\\'
    ensures var cut := CutSpace(line);
            LoadFrom(line + "\n" + more, "", p) == LoadFrom(more, cut[..|cut| - 1], p)
  {
    hide OneTurn, LoadFrom, CutSpace;
    TurnOfLine(line, more, p);
    LoadTurn(line + "\n" + more, "", p, Read(line, more, p));
  }

  /** A line that is not continued is absorbed. */
  lemma ReadLine(line: string, more: string, p: Parsed)
    requires line != "" && '\n' !in line && |line| + 1 < ASCIILINESZ
    requires var cut := CutSpace(line); cut == "" || cut[|cut| - 1] != '\\'
    ensures LoadFrom(line + "\n" + more, "", p) == LoadFrom(more, "", Absorb(ParseLine(line), p))
  {
    hide OneTurn, LoadFrom, CutSpace, ParseLine, Absorb;
    TurnOfLine(line, more, p);
    LoadTurn(line + "\n" + more, "", p, Read(line, more, p));
  }

  lemma ReadBlank(more: string, p: Parsed)
    ensures LoadFrom("\n" + more, "", p) == LoadFrom(more, "", p)
  {
  }

  lemma ReadSection(name: string, more: string, p: Parsed)
    requires NameSafe(name)
    ensures LoadFrom(Bracketed(name) + "\n" + more, "", p)
             == LoadFrom(more, "", Parsed(name, SetIn(p.slots, name, None), p.errs))
  {
    hide CutSpace, ParseLine, LoadFrom, SetIn;
    SectionRoundTrip(name);
    BracketedEnds(name);
    ReadLine(Bracketed(name), more, p);
  }

  lemma BracketedEnds(name: string)
    requires NameSafe(name)
    ensures var line := Bracketed(name);
            line != "" && '\n' !in line && |line| + 1 < ASCIILINESZ && CutSpace(line) == line && line[|line| - 1] == ']'
  {
  }

  lemma PrintedEnds(k: string, v: string)
    requires EntrySafe(k, v)
    ensures var line, cut := Printed(k, v), CutSpace(Printed(k, v));
            line != "" && '\n' !in line && |line| + 1 < ASCIILINESZ && cut != "" && cut[|cut| - 1] != '\\'
  {
  }

  lemma ReadEntry(section: string, k: string, v: string, more: string, p: Parsed)
    requires EntrySafe(k, v) && p.section == section
    ensures LoadFrom(Printed(k, v) + "\n" + more, "", p)
            == LoadFrom(more, "", p.(slots := SetIn(p.slots, section + ":" + k, Some(v))))
  {
    hide CutSpace, ParseLine, LoadFrom, SetIn, LineSafe, Printed;
    LineRoundTrip(k, v);
    PrintedEnds(k, v);
    ReadLine(Printed(k, v), more, p);
  }

  // The whole file.

  /** A dictionary that holds some of the entries of `m`, and nothing else. */
  ghost predicate PartOf(dict: Slots, m: map<string, Option<string>>) {
    && KeysDistinct(dict) && dict != []
    && forall k :: k in View(dict) ==> k in m && View(dict)[k] == m[k]
  }

  lemma SetKeepsPart(dict: Slots, m: map<string, Option<string>>, key: string)
    requires PartOf(dict, m) && key in m
    ensures var u := SetIn(dict, key, m[key]);
            PartOf(u, m) && key in View(u) && View(dict).Keys <= View(u).Keys
  {
    hide SetIn, View, KeysDistinct;
    SetUpdates(dict, key, m[key]);
  }

  lemma {:induction false} ColonIs(key: string, n: nat)
    requires n <= |key| && ':' !in key[..n] && (n < |key| ==> key[n] == ':')
    ensures Colon(key) == n
    decreases n
  {
  }

  /** A key of a section splits at its first colon. */
  lemma KeySplits(key: string, section: string)
    requires section + ":" <= key && ':' !in section
    ensures Colon(key) == |section| < |key| && key == section + ":" + key[|section| + 1..]
  {
    hide Colon;
    assert key[..|section| + 1] == section + ":";
    assert key[..|section|] == section && key[|section|] == ':';
    ColonIs(key, |section|);
  }

  lemma KeyWellFormed(m: map<string, Option<string>>, key: string)
    requires WellFormed(m) && key in m && Colon(key) < |key|
    ensures key[..Colon(key)] in m && m[key].Some? && EntrySafe(key[Colon(key) + 1..], m[key].value)
  {
  }

  /** What an item that belongs to a section of a well-formed dictionary looks like. */
  lemma BelongsSafe(s: Slots, j: nat, section: string)
    requires KeysDistinct(s) && WellFormed(View(s)) && j < |s| && Belongs(s[j], section) && ':' !in section
    ensures var x := s[j].value;
            && x.key in View(s) && View(s)[x.key] == x.val && x.val.Some?
            && EntrySafe(x.key[|section| + 1..], x.val.value)
            && x.key == section + ":" + x.key[|section| + 1..]
  {
    hide View, EntrySafe, Colon, WellFormed, KeysDistinct;
    Holds(s, j);
    KeySplits(s[j].value.key, section);
    KeyWellFormed(View(s), s[j].value.key);
  }

  lemma {:induction false} LoadEntries(s: Slots, section: string, j: nat, more: string, p: Parsed) returns (q: Parsed)
    requires KeysDistinct(s) && WellFormed(View(s)) && j <= |s| && ':' !in section
    requires p.section == section && PartOf(p.slots, View(s))
    ensures q.section == section && q.errs == p.errs && PartOf(q.slots, View(s))
    ensures LoadFrom(Entries(s, section, j) + more, "", p) == LoadFrom(more, "", q)
    ensures View(p.slots).Keys <= View(q.slots).Keys
    ensures forall i :: j <= i < |s| && Belongs(s[i], section) ==> s[i].value.key in View(q.slots)
    decreases |s| - j
  {
    hide KeysDistinct, WellFormed, View, PartOf, LoadFrom, EntrySafe, SetIn, Printed;
    if j == |s| {
      q := p;
      assert "" + more == more;
    } else if Belongs(s[j], section) {
      BelongsSafe(s, j, section);
      var x := s[j].value;
      var k := x.key[|section| + 1..];
      var p' := p.(slots := SetIn(p.slots, x.key, x.val));
      assert Entries(s, section, j) + more == Printed(k, x.val.value) + "\n" + (Entries(s, section, j + 1) + more);
      ReadEntry(section, k, x.val.value, Entries(s, section, j + 1) + more, p);
      SetKeepsPart(p.slots, View(s), x.key);
      q := LoadEntries(s, section, j + 1, more, p');
    } else {
      assert Entries(s, section, j) == Entries(s, section, j + 1);
      q := LoadEntries(s, section, j + 1, more, p);
    }
  }

  /** The section name and everything in it. */
  ghost predicate Covered(s: Slots, section: string, dict: Slots) {
    && section in View(dict)
    && forall i :: 0 <= i < |s| && Belongs(s[i], section) ==> s[i].value.key in View(dict)
  }

  lemma SectionSafe(m: map<string, Option<string>>, section: string)
    requires WellFormed(m) && section in m && ':' !in section
    ensures NameSafe(section) && m[section].None?
  {
  }

  lemma LoadSection(s: Slots, section: string, more: string, p: Parsed) returns (q: Parsed)
    requires KeysDistinct(s) && WellFormed(View(s)) && section in View(s) && ':' !in section
    requires PartOf(p.slots, View(s))
    ensures q.errs == p.errs && PartOf(q.slots, View(s)) && Covered(s, section, q.slots)
    ensures LoadFrom(DumpSection(s, section) + more, "", p) == LoadFrom(more, "", q)
    ensures View(p.slots).Keys <= View(q.slots).Keys
  {
    hide KeysDistinct, WellFormed, View, PartOf, LoadFrom, EntrySafe, NameSafe, SetIn, Bracketed, Belongs, Entries,
         Find;
    Lookup(s, section);
    SectionSafe(View(s), section);
    var tail := "\n" + more;
    var entries := Entries(s, section, 0);
    assert DumpSection(s, section) + more == Bracketed(section) + "\n" + (entries + tail);
    ReadSection(section, entries + tail, p);
    SetKeepsPart(p.slots, View(s), section);
    q := LoadEntries(s, section, 0, tail, Parsed(section, SetIn(p.slots, section, None), p.errs));
    ReadBlank(more, q);
  }

  lemma StillCovered(s: Slots, section: string, dict: Slots, dict': Slots)
    requires Covered(s, section, dict) && View(dict).Keys <= View(dict').Keys
    ensures Covered(s, section, dict')
  {
  }

  lemma {:induction false} LoadSections(s: Slots, names: seq<string>, p: Parsed) returns (q: Parsed)
    requires KeysDistinct(s) && WellFormed(View(s)) && PartOf(p.slots, View(s))
    requires forall i :: 0 <= i < |names| ==> names[i] in View(s) && ':' !in names[i]
    ensures q.errs == p.errs && PartOf(q.slots, View(s))
    ensures LoadFrom(DumpSections(s, names), "", p) == LoadFrom("", "", q)
    ensures View(p.slots).Keys <= View(q.slots).Keys
    ensures forall i :: 0 <= i < |names| ==> Covered(s, names[i], q.slots)
    decreases |names|
  {
    hide KeysDistinct, WellFormed, View, PartOf, LoadFrom, DumpSection, Covered;
    if names == [] {
      q := p;
    } else {
      var p' := LoadSection(s, names[0], DumpSections(s, names[1..]), p);
      q := LoadSections(s, names[1..], p');
      StillCovered(s, names[0], p'.slots, q.slots);
      forall i | 0 <= i < |names| ensures Covered(s, names[i], q.slots) {
        assert i > 0 ==> names[i] == names[1..][i - 1];
      }
    }
  }

  /** The section names are the keys without a colon. */
  lemma {:induction false} SectionsAre(s: Slots)
    ensures forall i :: 0 <= i < |Sections(s)| ==> ':' !in Sections(s)[i] && Sections(s)[i] in View(s)
    ensures forall i :: 0 <= i < |s| && IsSection(s[i]) ==> s[i].value.key in Sections(s)
    decreases |s|
  {
    if s != [] {
      SectionsAre(s[..|s| - 1]);
    }
  }

  lemma SectionListed(s: Slots, key: string)
    requires KeysDistinct(s) && key in View(s) && ':' !in key
    ensures key in Sections(s)
  {
  }

  lemma AllCovered(s: Slots, dict: Slots, key: string)
    requires KeysDistinct(s) && WellFormed(View(s)) && key in View(s)
    requires forall i :: 0 <= i < |Sections(s)| ==> Covered(s, Sections(s)[i], dict)
    ensures key in View(dict) && Sections(s) != []
  {
    hide View, Sections, KeysDistinct, NameSafe, EntrySafe;
    var n := Colon(key);
    assert ItemWellFormed(View(s), key);
    assert n == |key| ==> key[..n] == key;
    var section := key[..n];
    SectionListed(s, section);
    if n < |key| {
      Lookup(s, key);
      assert section + ":" <= key by { assert key[..n + 1] == section + ":"; }
      assert Belongs(s[Find(s, 0, key)], section);
    }
  }

  lemma EmptyDump(s: Slots, j: nat)
    requires j <= |s| && forall i :: j <= i < |s| ==> s[i].None?
    ensures DumpKeys(s, j) == ""
    decreases |s| - j
  {
  }

  lemma NoKeys(s: Slots, i: nat)
    requires KeysDistinct(s) && View(s) == map[] && i < |s|
    ensures s[i].None?
  {
    if s[i].Some? {
      Holds(s, i);
    }
  }

  /** Loading what was printed from a well-formed dictionary gives back the same map,
      however the dictionary came about and however large it is. */
  lemma DumpLoads(s: Slots)
    requires KeysDistinct(s) && WellFormed(View(s))
    ensures Load(Dump(s)).Some? && View(Load(Dump(s)).value) == View(s)
    ensures KeysDistinct(Load(Dump(s)).value)
  {
    hide KeysDistinct, WellFormed, View, Covered, Sections, DumpKeys, DumpSections, Empties;
    EmptyTable(DICTMINSZ);
    SizeOfEmpties(DICTMINSZ);
    SectionsAre(s);
    var p := Parsed("", Empties(DICTMINSZ), 0);
    if Sections(s) == [] {
      forall key ensures key !in View(s) {
        if key in View(s) {
          AllCovered(s, p.slots, key);
        }
      }
      assert View(s) == map[];
      forall i | 0 <= i < |s| ensures s[i].None? { NoKeys(s, i); }
      EmptyDump(s, 0);
    } else {
      var q := LoadSections(s, Sections(s), p);
      forall key | key in View(s) ensures key in View(q.slots) {
        AllCovered(s, q.slots, key);
      }
      assert View(q.slots) == View(s);
    }
  }

  lemma SizeOfEmpties(n: nat)
    ensures |Empties(n)| == n
  {
  }
}
