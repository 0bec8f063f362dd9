/** When exactly one entry survives printing and loading. */
module IniFileExact {
  import opened Options
  import opened Dictionary
  import opened IniLine
  import opened IniFile

  /** A section with one entry. */
  function OneEntry(section: string, k: string, v: string): Slots {
    [Some(Item(section, None)), Some(Item(section + ":" + k, Some(v)))]
  }

  function OneText(section: string, k: string, v: string): string {
    Bracketed(section) + "\n" + (Printed(k, v) + "\n" + "\n")
  }

  lemma DumpOne(section: string, k: string, v: string)
    requires ':' !in section
    ensures Dump(OneEntry(section, k, v)) == OneText(section, k, v)
  {
    hide Bracketed, Printed;
    var s := OneEntry(section, k, v);
    var key := section + ":" + k;
    assert ':' in key by { assert key[|section|] == ':'; }
    assert s[..1] == [s[0]] && s[..1][..0] == [];
    assert Sections(s[..1]) == [section];
    assert Sections(s) == [section];
    assert !Belongs(s[0], section);
    assert Belongs(s[1], section) && key[|section| + 1..] == k;
    assert Entries(s, section, 2) == "";
    assert Entries(s, section, 1) == EntryLine(s[1].value, section) + "" == Printed(k, v) + "\n";
    assert Entries(s, section, 0) == "" + Entries(s, section, 1) == Printed(k, v) + "\n";
    assert DumpSections(s, []) == "";
    assert [section][1..] == [];
  }

  lemma OneView(section: string, k: string, v: string)
    ensures KeysDistinct(OneEntry(section, k, v))
    ensures View(OneEntry(section, k, v)) == map[section := None, section + ":" + k := Some(v)]
  {
    var s := OneEntry(section, k, v);
    assert |section + ":" + k| > |section|;
    assert s[..1] == [s[0]] && s[..1][..0] == [];
    assert View(s[..1]) == map[section := None];
  }

  /** What is left of the map when `line` was the only line after the section line. */
  lemma OneLine(section: string, k: string, v: string, line: Line, p: Parsed)
    requires p.section == section && KeysDistinct(p.slots) && p.slots != [] && View(p.slots) == map[section := None]
    ensures var q := Absorb(line, p); var key := section + ":" + k;
            q.errs == p.errs && key in View(q.slots) && View(q.slots)[key] == Some(v) ==> line == Value(k, v)
  {
    hide SetIn, View, KeysDistinct;
    var key := section + ":" + k;
    assert |key| > |section|;
    match line
    case Empty =>
    case Comment =>
    case Section(name) => SetUpdates(p.slots, if name.Some? then name.value else section, None);
    case Value(k', v') =>
      SetUpdates(p.slots, section + ":" + k', Some(v'));
      SameTail(section, k', k);
    case Error =>
  }

  lemma SameTail(section: string, a: string, b: string)
    ensures section + ":" + a == section + ":" + b ==> a == b
  {
    assert (section + ":" + a)[|section| + 1..] == a;
    assert (section + ":" + b)[|section| + 1..] == b;
  }

  // Nothing that is loaded contains a newline.

  predicate Clean(s: string) { '\n' !in s }

  ghost predicate CleanMap(m: map<string, Option<string>>) {
    forall k :: k in m ==> Clean(k) && (m[k].Some? ==> Clean(m[k].value))
  }

  lemma {:induction false} ScanLacks(s: string, format: seq<Directive>)
    requires Clean(s)
    ensures forall i :: 0 <= i < |Scan(s, format)| ==> Clean(Scan(s, format)[i])
    decreases |format|
  {
    hide SkipSpace, Span;
    if format != [] {
      match format[0]
      case White => ScanLacks(SkipSpace(s), format[1..]);
      case Lit(c) => if s != "" { ScanLacks(s[1..], format[1..]); }
      case _ => ScanLacks(s[Span(s, format[0])..], format[1..]);
    }
  }

  lemma ChosenClean(double: seq<string>, single: seq<string>, bare: seq<string>, mark: seq<string>,
                    nothing: seq<string>)
    requires forall i :: 0 <= i < |double| ==> Clean(double[i])
    requires forall i :: 0 <= i < |single| ==> Clean(single[i])
    requires forall i :: 0 <= i < |bare| ==> Clean(bare[i])
    requires forall i :: 0 <= i < |mark| ==> Clean(mark[i])
    requires forall i :: 0 <= i < |nothing| ==> Clean(nothing[i])
    ensures var r := Choose(double, single, bare, mark, nothing); r.Value? ==> Clean(r.key) && Clean(r.val)
    ensures var r := Choose(double, single, bare, mark, nothing); r.Value? || r.Error?
  {
    hide Strip;
    forall s: string | Clean(s) ensures Clean(Strip(s)) { StripLacks(s, '\n'); }
  }

  predicate CleanLine(l: Line) {
    match l
    case Section(name) => name.Some? ==> Clean(name.value)
    case Value(key, val) => Clean(key) && Clean(val)
    case _ => true
  }

  lemma ParseClean(input: string)
    requires Clean(input)
    ensures CleanLine(ParseLine(input))
  {
    hide Strip, Scan, Choose, Quoted, BARE, MARK, NOTHING, SECTION;
    StripLacks(input, '\n');
    var line := Strip(input);
    ScanLacks(line, SECTION);
    ScanLacks(line, Quoted('"'));
    ScanLacks(line, Quoted('\''));
    ScanLacks(line, BARE);
    ScanLacks(line, MARK);
    ScanLacks(line, NOTHING);
    ChosenClean(Scan(line, Quoted('"')), Scan(line, Quoted('\'')),
                Scan(line, BARE), Scan(line, MARK), Scan(line, NOTHING));
    forall s: string | Clean(s) ensures Clean(Strip(s)) { StripLacks(s, '\n'); }
  }

  /** The invariant of the loop. */
  ghost predicate CleanParsed(p: Parsed) {
    Clean(p.section) && KeysDistinct(p.slots) && p.slots != [] && CleanMap(View(p.slots))
  }

  lemma SetClean(slots: Slots, key: string, val: Option<string>)
    requires KeysDistinct(slots) && slots != [] && CleanMap(View(slots)) && Clean(key)
             && (val.Some? ==> Clean(val.value))
    ensures var u := SetIn(slots, key, val); KeysDistinct(u) && u != [] && CleanMap(View(u))
  {
    hide SetIn, View, KeysDistinct;
    SetUpdates(slots, key, val);
  }

  lemma AbsorbClean(l: Line, p: Parsed)
    requires CleanLine(l) && CleanParsed(p)
    ensures CleanParsed(Absorb(l, p))
  {
    hide SetIn, View, KeysDistinct, CleanMap;
    match l
    case Section(name) => SetClean(p.slots, if name.Some? then name.value else p.section, None);
    case Value(key, val) => SetClean(p.slots, p.section + ":" + key, Some(val));
    case _ =>
  }

  /** A line of the buffer has no newline but at its end. */
  lemma CutClean(text: string, pending: string, n: nat)
    requires Clean(pending) && n <= LineLength(text)
    ensures Clean(CutSpace(pending + text[..n]))
  {
  }

  lemma TurnClean(text: string, pending: string, p: Parsed)
    requires |pending| < ASCIILINESZ - 1 && text != "" && Clean(pending) && CleanParsed(p)
    ensures var t := OneTurn(text, pending, p); t.Next? ==> Clean(t.pending) && CleanParsed(t.parsed)
  {
    hide CutSpace, ParseLine, Absorb, LineLength, CleanParsed;
    var n := FGets(text, ASCIILINESZ - |pending|);
    var cut := CutSpace(pending + text[..n]);
    CutClean(text, pending, n);
    ParseClean(cut);
    AbsorbClean(ParseLine(cut), p);
  }

  lemma {:induction false} LoadClean(text: string, pending: string, p: Parsed)
    requires |pending| < ASCIILINESZ - 1 && Clean(pending) && CleanParsed(p)
    ensures var r := LoadFrom(text, pending, p); r.Some? ==> CleanMap(View(r.value))
    decreases |text|
  {
    hide OneTurn, CleanMap, View, KeysDistinct;
    if text != "" {
      TurnClean(text, pending, p);
      var t := OneTurn(text, pending, p);
      if t.Next? {
        LoadClean(t.rest, t.pending, t.parsed);
      }
    }
  }

  // A single entry.

  /** The loader after the section line. */
  ghost predicate AfterSection(section: string, p: Parsed) {
    p.section == section && p.errs == 0 && KeysDistinct(p.slots) && p.slots != []
        && View(p.slots) == map[section := None]
  }

  /** The entry is in what was loaded. */
  ghost predicate Survives(section: string, k: string, v: string, r: Option<Slots>) {
    r.Some? && section + ":" + k in View(r.value) && View(r.value)[section + ":" + k] == Some(v)
  }

  lemma AtEnd(pending: string, p: Parsed)
    requires |pending| < ASCIILINESZ - 1
    ensures LoadFrom("", pending, p) == if p.errs > 0 then None else Some(p.slots)
  {
  }

  /** Nothing but the section was loaded. */
  lemma NothingLoaded(section: string, k: string, v: string, p: Parsed)
    requires AfterSection(section, p)
    ensures !Survives(section, k, v, Some(p.slots))
  {
  }

  /** A line that is too long makes the loader give up. */
  lemma TooLong(line: string, more: string, p: Parsed)
    requires Clean(line) && |line| + 1 >= ASCIILINESZ
    ensures LoadFrom(line + "\n" + more, "", p).None?
  {
  }

  lemma {:induction false} ValueOfShorter(rest: string)
    ensures |ValueOf(rest)| <= |rest|
  {
  }

  lemma StripShorter(s: string)
    ensures |Strip(s)| <= |s|
  {
  }

  /** A printed value is never read back as a longer one. */
  lemma NotLonger(k: string, w: string, v: string)
    requires |w| < |v|
    ensures ParseLine(Printed(k, w)) != Value(k, v)
  {
    hide Printed, ValueOf, Strip, ParseLine, Trimmed;
    if ParseLine(Printed(k, w)) == Value(k, v) {
      GoodKey(k, w);
      ParsePrinted(k, w);
      ValueOfShorter(Strip(w));
      StripShorter(w);
    }
  }

  lemma PrintedParts(k: string, c: string, blanks: string)
    ensures Printed(k, c + blanks) == Printed(k, c) + blanks
    ensures Printed(k, c) == Head(k) + (" " + c)
    ensures |Printed(k, c)| == |k| + 3 + |c| && (c != "" ==> Printed(k, c)[|Printed(k, c)| - 1] == c[|c| - 1])
    ensures Head(k) != "" && Head(k)[|Head(k)| - 1] == '='
  {
  }

  lemma CutBlankValue(k: string, v: string)
    requires CutSpace(v) == ""
    ensures CutSpace(Printed(k, v)) == Head(k)
  {
    hide CutSpace, Printed, Head;
    PrintedParts(k, v, "");
    CutOf(Head(k), " " + v);
  }

  lemma CutValue(k: string, v: string, c: string)
    requires c != "" && CutSpace(v) == c
    ensures CutSpace(Printed(k, v)) == Printed(k, c)
  {
    hide CutSpace, Printed, Head;
    var blanks := v[|c|..];
    assert v == c + blanks;
    PrintedParts(k, c, blanks);
    CutOf(Printed(k, c), blanks);
  }

  /** A trailing backslash in a printed line belongs to the value. */
  lemma BackslashInValue(k: string, v: string)
    requires var cut := CutSpace(Printed(k, v)); cut != "" && cut[|cut| - 1] == '\\'
    ensures var cut, c := CutSpace(Printed(k, v)), CutSpace(v);
            c != "" && cut[..|cut| - 1] == Printed(k, c[..|c| - 1])
  {
    hide CutSpace, Printed, Head;
    var c := CutSpace(v);
    PrintedParts(k, c, "");
    if c == "" {
      CutBlankValue(k, v);
    } else {
      CutValue(k, v, c);
      var w, last := c[..|c| - 1], [c[|c| - 1]];
      assert c == w + last;
      PrintedParts(k, w, last);
    }
  }

  /** The blank line that ends a section, after a continued line. */
  lemma BlankAfter(pending: string, p: Parsed)
    requires 0 < |pending| < ASCIILINESZ - 1 && p.errs == 0
    ensures LoadFrom("\n", pending, p)
            == match Read(pending, "", p) case Next(_, _, q) => if q.errs > 0 then None else Some(q.slots)
  {
    hide LoadFrom, OneTurn, CutSpace, ParseLine, Absorb;
    BlankTurn(pending, p);
    var t := Read(pending, "", p);
    LoadTurn("\n", pending, p, t);
    AtEnd(t.pending, t.parsed);
  }

  lemma BlankTurn(pending: string, p: Parsed)
    requires 0 < |pending| < ASCIILINESZ - 1
    ensures OneTurn("\n", pending, p) == Read(pending, "", p)
  {
    hide CutSpace, ParseLine, Absorb, OneTurn, Read;
    assert LineLength("\n") == 1;
    assert pending + "\n"[..1] == pending + "\n" && "\n"[1..] == "";
    TurnOf("\n", pending, 1, pending, p);
  }

  /** A continued line loses its backslash, so the value is not read back. */
  lemma Continued(section: string, k: string, v: string, p: Parsed)
    requires AfterSection(section, p) && Clean(Printed(k, v)) && |Printed(k, v)| + 1 < ASCIILINESZ
    requires var cut := CutSpace(Printed(k, v)); cut != "" && cut[|cut| - 1] == '\\'
    ensures !Survives(section, k, v, LoadFrom(Printed(k, v) + "\n" + "\n", "", p))
  {
    hide CutSpace, LoadFrom, ParseLine, Absorb, View, KeysDistinct, Survives, Printed, Head;
    var line, c := Printed(k, v), CutSpace(v);
    BackslashInValue(k, v);
    var w := c[..|c| - 1];
    var pending := Printed(k, w);
    PrintedParts(k, v, "");
    PrintedParts(k, w, "");
    ReadContinued(line, "\n", p);
    BlankAfter(pending, p);
    NothingLoaded(section, k, v, p);
    NotLonger(k, w, v);
    NoErrors(section, k, v, ParseLine(pending), p, Absorb(ParseLine(pending), p));
  }

  lemma NoErrors(section: string, k: string, v: string, line: Line, p: Parsed, q: Parsed)
    requires AfterSection(section, p) && q == Absorb(line, p)
    ensures Survives(section, k, v, if q.errs > 0 then None else Some(q.slots)) ==> line == Value(k, v)
  {
    hide Absorb, View, KeysDistinct;
    OneLine(section, k, v, line, p);
  }

  /** Any other line that is not continued. */
  lemma Single(section: string, k: string, v: string, p: Parsed)
    requires AfterSection(section, p) && Clean(Printed(k, v)) && |Printed(k, v)| + 1 < ASCIILINESZ
    requires var cut := CutSpace(Printed(k, v)); cut == "" || cut[|cut| - 1] != '\\'
    ensures Survives(section, k, v, LoadFrom(Printed(k, v) + "\n" + "\n", "", p)) ==> EntrySafe(k, v)
  {
    hide CutSpace, LineLength, ParseLine, Absorb, View, KeysDistinct, Survives, LoadFrom, AfterSection, LineSafe;
    var line := Printed(k, v);
    ReadLine(line, "\n", p);
    var q := Absorb(ParseLine(line), p);
    assert "\n" + "" == "\n";
    ReadBlank("", q);
    AtEnd("", q);
    NoErrors(section, k, v, ParseLine(line), p, q);
    LineRoundTrip(k, v);
    if LineSafe(k, v) {
      SafeEnds(k, v);
    }
  }

  lemma SafeEnds(k: string, v: string)
    requires LineSafe(k, v) && Clean(Printed(k, v)) && |Printed(k, v)| + 1 < ASCIILINESZ
    requires var cut := CutSpace(Printed(k, v)); cut == "" || cut[|cut| - 1] != '\\'
    ensures EntrySafe(k, v)
  {
  }

  /** A dictionary of one section, with a safe name, and one entry is loaded back from
      what is printed exactly when the entry is safe: it shows that none of the
      conditions on entries in WellFormed can be dropped. */
  lemma OneEntryRoundTrip(section: string, k: string, v: string)
    requires NameSafe(section) && ':' !in section
    ensures var s := OneEntry(section, k, v);
            KeysDistinct(s)
            && (Load(Dump(s)).Some? && View(Load(Dump(s)).value) == View(s) <==> EntrySafe(k, v))
  {
    hide NameSafe, EntrySafe, LoadFrom, View, KeysDistinct, Dump, OneEntry, Empties, Bracketed, Printed, SetIn;
    var s := OneEntry(section, k, v);
    OneView(section, k, v);
    DumpOne(section, k, v);
    if EntrySafe(k, v) {
      OneWellFormed(section, k, v);
      DumpLoads(s);
    } else {
      OneFails(section, k, v);
    }
  }

  lemma OneWellFormed(section: string, k: string, v: string)
    requires NameSafe(section) && ':' !in section && EntrySafe(k, v)
    ensures WellFormed(map[section := None, section + ":" + k := Some(v)])
  {
    hide NameSafe, EntrySafe, Colon;
    var m := map[section := None, section + ":" + k := Some(v)];
    var full := section + ":" + k;
    assert section + ":" <= full;
    KeySplits(full, section);
    assert full[..|section|] == section;
    assert full[|section| + 1..] == k;
    assert section[..|section|] == section;
    ColonIs(section, |section|);
    assert |full| > |section|;
    assert ItemWellFormed(m, full);
    assert ItemWellFormed(m, section);
  }

  lemma OneFails(section: string, k: string, v: string)
    requires NameSafe(section) && ':' !in section && !EntrySafe(k, v)
    ensures !Survives(section, k, v, Load(OneText(section, k, v)))
  {
    hide NameSafe, EntrySafe, LoadFrom, View, KeysDistinct, Printed, Bracketed, CutSpace, Survives, SetIn, Empties,
         AfterSection;
    var p0 := Parsed("", Empties(DICTMINSZ), 0);
    EmptyTable(DICTMINSZ);
    SizeOfEmpties(DICTMINSZ);
    var p := Parsed(section, SetIn(p0.slots, section, None), 0);
    var line := Printed(k, v);
    ReadSection(section, line + "\n" + "\n", p0);
    SectionOnly(section, p0, p);
    if !Clean(line) {
      NotClean(section, k, v, p);
    } else if |line| + 1 >= ASCIILINESZ {
      TooLong(line, "\n", p);
      NothingSurvives(section, k, v);
    } else if CutSpace(line) != "" && CutSpace(line)[|CutSpace(line)| - 1] == '\\' {
      Continued(section, k, v, p);
    } else {
      Single(section, k, v, p);
    }
  }

  lemma NothingSurvives(section: string, k: string, v: string)
    ensures !Survives(section, k, v, None)
  {
  }

  lemma SectionOnly(section: string, p0: Parsed, p: Parsed)
    requires KeysDistinct(p0.slots) && p0.slots != [] && View(p0.slots) == map[]
    requires p == Parsed(section, SetIn(p0.slots, section, None), 0)
    ensures AfterSection(section, p)
  {
    hide SetIn, View, KeysDistinct;
    SetUpdates(p0.slots, section, None);
  }

  lemma NotClean(section: string, k: string, v: string, p: Parsed)
    requires NameSafe(section) && AfterSection(section, p) && !Clean(Printed(k, v))
    ensures !Survives(section, k, v, LoadFrom(Printed(k, v) + "\n" + "\n", "", p))
  {
    hide LoadFrom, View, KeysDistinct;
    var text := Printed(k, v) + "\n" + "\n";
    LoadClean(text, "", p);
    assert Clean(k) && Clean(v) ==> Clean(Printed(k, v));
    assert Clean(section + ":" + k) ==> Clean(k) by {
      assert (section + ":" + k)[|section| + 1..] == k;
    }
  }

  /** A name that is not safe can survive all the same: the empty one, when its section is
      printed first, because a line `[]` leaves the section empty as it was. */
  lemma EmptyNameRoundTrip(k: string, v: string)
    requires EntrySafe(k, v)
    ensures var s := OneEntry("", k, v);
            KeysDistinct(s) && !WellFormed(View(s)) && Load(Dump(s)).Some? && View(Load(Dump(s)).value) == View(s)
  {
    hide EntrySafe, LoadFrom, View, KeysDistinct, Dump, OneEntry, Empties, Printed, SetIn, ParseLine, Bracketed;
    OneView("", k, v);
    DumpOne("", k, v);
    EmptyNotWellFormed(map["" := None, "" + ":" + k := Some(v)]);
    EmptyTable(DICTMINSZ);
    SizeOfEmpties(DICTMINSZ);
    var p0 := Parsed("", Empties(DICTMINSZ), 0);
    var p1 := p0.(slots := SetIn(p0.slots, "", None));
    var p2 := p1.(slots := SetIn(p1.slots, "" + ":" + k, Some(v)));
    EmptyNameLine();
    ReadLine(Bracketed(""), Printed(k, v) + "\n" + "\n", p0);
    SetUpdates(p0.slots, "", None);
    ReadEntry("", k, v, "\n", p1);
    SetUpdates(p1.slots, "" + ":" + k, Some(v));
    assert "\n" + "" == "\n";
    ReadBlank("", p2);
    AtEnd("", p2);
  }

  lemma EmptyNotWellFormed(m: map<string, Option<string>>)
    requires "" in m
    ensures !WellFormed(m)
  {
    assert !ItemWellFormed(m, "");
  }

  lemma EmptyNameLine()
    ensures ParseLine(Bracketed("")) == Section(None)
    ensures Bracketed("") == "[]" && CutSpace("[]") == "[]"
  {
    hide ParseLine, UpToBracket, Strip;
    ParseBracketed("");
    UpToBracketIs("");
  }

  // The order of what is printed.

  lemma {:induction false} EntriesInOrder(a: Slots, b: Slots, section: string, j: nat)
    requires j <= |a|
    ensures Entries(a + b, section, j) == Entries(a, section, j) + Entries(b, section, 0)
    decreases |a| - j
  {
    hide EntryLine, Belongs;
    if j == |a| {
      EntriesBehind(a, b, section, 0);
    } else {
      EntriesInOrder(a, b, section, j + 1);
    }
  }

  lemma {:induction false} EntriesBehind(a: Slots, b: Slots, section: string, j: nat)
    requires j <= |b|
    ensures Entries(a + b, section, |a| + j) == Entries(b, section, j)
    decreases |b| - j
  {
    hide EntryLine, Belongs;
    if j < |b| {
      EntriesBehind(a, b, section, j + 1);
    }
  }

  lemma {:induction false} SectionsInOrder(a: Slots, b: Slots)
    ensures Sections(a + b) == Sections(a) + Sections(b)
    decreases |b|
  {
    if b == [] {
      assert a + b == a;
    } else {
      assert (a + b)[..|a + b| - 1] == a + b[..|b| - 1];
      SectionsInOrder(a, b[..|b| - 1]);
    }
  }

  /** Sections, and the entries of a section, are printed in the order of their slots. */
  lemma PrintedInOrder(a: Slots, b: Slots, section: string)
    ensures Sections(a + b) == Sections(a) + Sections(b)
    ensures Entries(a + b, section, 0) == Entries(a, section, 0) + Entries(b, section, 0)
  {
    SectionsInOrder(a, b);
    EntriesInOrder(a, b, section, 0);
  }

  // A dictionary without sections.

  /** What is printed for a value. */
  function Shown(v: Option<string>): string { if v.Some? then v.value else "(null)" }

  /** The keys with a colon in front, the values as they are printed. */
  ghost function Unsectioned(m: map<string, Option<string>>): (u: map<string, Option<string>>)
    ensures forall k :: k in m ==> ":" + k in u && u[":" + k] == Some(Shown(m[k]))
    ensures forall k :: k in u ==> k != "" && k[0] == ':' && k[1..] in m
  {
    assert forall k :: k in m ==> (":" + k)[1..] == k;
    map k | k in m :: ":" + k := Some(Shown(m[k]))
  }

  ghost predicate KeysSafe(m: map<string, Option<string>>) {
    forall k :: k in m ==> EntrySafe(k, Shown(m[k]))
  }

  lemma ReadKey(x: Item, more: string, p: Parsed)
    requires EntrySafe(x.key, Shown(x.val)) && p.section == ""
    ensures LoadFrom(KeyLine(x) + more, "", p)
            == LoadFrom(more, "", p.(slots := SetIn(p.slots, ":" + x.key, Some(Shown(x.val)))))
  {
    hide EntrySafe, LoadFrom, SetIn, Printed;
    ReadEntry("", x.key, Shown(x.val), more, p);
    assert "" + ":" + x.key == ":" + x.key;
  }

  lemma {:induction false} LoadKeys(s: Slots, j: nat, p: Parsed) returns (q: Parsed)
    requires KeysDistinct(s) && KeysSafe(View(s)) && j <= |s|
    requires p.section == "" && PartOf(p.slots, Unsectioned(View(s)))
    ensures q.errs == p.errs && PartOf(q.slots, Unsectioned(View(s)))
    ensures LoadFrom(DumpKeys(s, j), "", p) == LoadFrom("", "", q)
    ensures View(p.slots).Keys <= View(q.slots).Keys
    ensures forall i :: j <= i < |s| && s[i].Some? ==> ":" + s[i].value.key in View(q.slots)
    decreases |s| - j
  {
    hide KeysDistinct, View, PartOf, LoadFrom, EntrySafe, SetIn, KeyLine, Unsectioned;
    if j == |s| {
      q := p;
    } else if s[j].Some? {
      var x := s[j].value;
      Holds(s, j);
      ReadKey(x, DumpKeys(s, j + 1), p);
      SetKeepsPart(p.slots, Unsectioned(View(s)), ":" + x.key);
      q := LoadKeys(s, j + 1, p.(slots := SetIn(p.slots, ":" + x.key, Some(Shown(x.val)))));
    } else {
      assert DumpKeys(s, j) == DumpKeys(s, j + 1);
      q := LoadKeys(s, j + 1, p);
    }
  }

  /** Without a section the keys are printed on their own, and are read back in the section
      without a name: each with a colon in front, and a missing value as the text printed
      for it. */
  lemma KeysLoad(s: Slots)
    requires KeysDistinct(s) && Sections(s) == [] && KeysSafe(View(s))
    ensures Load(Dump(s)).Some? && View(Load(Dump(s)).value) == Unsectioned(View(s))
  {
    hide KeysDistinct, View, Unsectioned, Sections, DumpKeys, Empties, KeysSafe, Find;
    EmptyTable(DICTMINSZ);
    SizeOfEmpties(DICTMINSZ);
    var u := Unsectioned(View(s));
    var q := LoadKeys(s, 0, Parsed("", Empties(DICTMINSZ), 0));
    forall k | k in u ensures k in View(q.slots) {
      Lookup(s, k[1..]);
      assert k == ":" + k[1..];
    }
  }
}
