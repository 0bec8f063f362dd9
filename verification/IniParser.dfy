/** The loops of app/iniparser.c over a dictionary. */
module IniParser {
  import opened Options
  import opened Dictionary
  import opened IniLine
  import opened IniFile

  /** iniparser_getnsec. */
  method GetNSec(d: Dict) returns (nsec: nat)
    requires d.Valid()
    ensures nsec == |Sections(d.Slots())|
  {
    hide HashOf, Zip, KeysDistinct, Count, Dict.Shape, Dict.Slots, Dict.Hashed;
    nsec := 0;
    for i := 0 to d.size
      invariant nsec == |Sections(d.Slots()[..i])|
    {
      assert d.Slots()[..i + 1][..i] == d.Slots()[..i];
      var x := d.At(i);
      if x.None? {
        continue;
      }
      if ':' !in x.value.key {
        nsec := nsec + 1;
      }
    }
    assert d.Slots()[..d.size] == d.Slots();
  }

  lemma {:induction false} SectionsPrefix(s: Slots, i: nat)
    requires i <= |s|
    ensures Sections(s[..i]) <= Sections(s)
    decreases |s| - i
  {
    if i < |s| {
      assert s[..i + 1][..i] == s[..i];
      SectionsPrefix(s, i + 1);
    } else {
      assert s[..i] == s;
    }
  }

  /** iniparser_getsecname: the name of the n-th section. */
  method GetSecName(d: Dict, n: int) returns (name: Option<string>)
    requires d.Valid()
    ensures name == if 0 <= n < |Sections(d.Slots())| then Some(Sections(d.Slots())[n]) else None
  {
    hide HashOf, Zip, KeysDistinct, Count, Dict.Shape, Dict.Slots, Dict.Hashed;
    if n < 0 {
      return None;
    }
    var foundsec := 0;
    for i := 0 to d.size
      invariant foundsec == |Sections(d.Slots()[..i])| <= n
    {
      assert d.Slots()[..i + 1][..i] == d.Slots()[..i];
      var x := d.At(i);
      if x.None? {
        continue;
      }
      if ':' !in x.value.key {
        foundsec := foundsec + 1;
        if foundsec > n {
          SectionsPrefix(d.Slots(), i + 1);
          return Some(x.value.key);
        }
      }
    }
    assert d.Slots()[..d.size] == d.Slots();
    return None;
  }

  /** iniparser_find_entry. */
  method FindEntry(d: Dict, entry: string) returns (found: bool)
    requires d.Valid()
    ensures found == (entry in d.Map())
  {
    hide *;
    var v := d.Get(entry);
    found := v.Some?;
  }

  /** iniparser_dumpsection_ini: what it prints. */
  method DumpSectionIni(d: Dict, section: string) returns (out: string)
    requires d.Valid()
    ensures out == DumpSection(d.Slots(), section)
  {
    hide HashOf, Zip, KeysDistinct, Count, View, Find, Dict.Shape, Dict.Slots, Dict.Hashed, Bracketed, EntryLine,
         Entries;
    Lookup(d.Slots(), section);
    out := "";
    var found := FindEntry(d, section);
    if !found {
      return;
    }
    out := Bracketed(section) + "\n";
    ghost var start := out;
    for j := 0 to d.size
      invariant out + Entries(d.Slots(), section, j) == start + Entries(d.Slots(), section, 0)
    {
      EntriesStep(out, d.Slots(), section, j);
      var x := d.At(j);
      if x.None? {
        continue;
      }
      if section + ":" <= x.value.key {
        out := out + EntryLine(x.value, section);
      }
    }
    NothingLeft(out, d.Slots(), section);
    out := out + "\n";
  }

  lemma Assoc(a: string, b: string, c: string)
    ensures (a + b) + c == a + (b + c)
  {
  }

  lemma NothingLeft(out: string, s: Slots, section: string)
    ensures out + Entries(s, section, |s|) == out == out + DumpKeys(s, |s|)
    ensures "" + DumpKeys(s, 0) == DumpKeys(s, 0)
  {
  }

  lemma EntriesStep(out: string, s: Slots, section: string, j: nat)
    requires j < |s|
    ensures out + Entries(s, section, j)
            == (if Belongs(s[j], section) then out + EntryLine(s[j].value, section) else out)
               + Entries(s, section, j + 1)
  {
    hide EntryLine, Belongs;
  }

  lemma KeysStep(out: string, s: Slots, i: nat)
    requires i < |s|
    ensures out + DumpKeys(s, i) == (if s[i].None? then out else out + KeyLine(s[i].value)) + DumpKeys(s, i + 1)
  {
  }

  method DumpKeysIni(d: Dict) returns (out: string)
    requires d.Valid()
    ensures out == DumpKeys(d.Slots(), 0)
  {
    hide HashOf, Zip, KeysDistinct, Count, Dict.Shape, Dict.Slots, Dict.Hashed, KeyLine, DumpKeys;
    out := "";
    NothingLeft("", d.Slots(), "");
    for i := 0 to d.size
      invariant out + DumpKeys(d.Slots(), i) == DumpKeys(d.Slots(), 0)
    {
      KeysStep(out, d.Slots(), i);
      var x := d.At(i);
      if x.None? {
        continue;
      }
      out := out + KeyLine(x.value);
    }
    NothingLeft(out, d.Slots(), "");
  }

  /** iniparser_dump_ini. */
  method DumpIni(d: Dict) returns (out: string)
    requires d.Valid()
    ensures out == Dump(d.Slots())
  {
    hide HashOf, Zip, KeysDistinct, Count, Sections, Dump, DumpSection, DumpSections, Dict.Shape, Dict.Slots,
         Dict.Hashed;
    DumpBegins(d.Slots());
    var nsec := GetNSec(d);
    if nsec < 1 {
      out := DumpKeysIni(d);
      return;
    }
    out := "";
    for i := 0 to nsec
      invariant out + DumpSections(d.Slots(), Sections(d.Slots())[i..]) == Dump(d.Slots())
    {
      var secname := GetSecName(d, i);
      var text := DumpSectionIni(d, secname.value);
      DumpTurn(out, d.Slots(), Sections(d.Slots()), i);
      out := out + text;
    }
    DumpEnds(out, d.Slots(), Sections(d.Slots()));
  }

  lemma DumpBegins(s: Slots)
    ensures Sections(s) == [] ==> Dump(s) == DumpKeys(s, 0)
    ensures Sections(s) != [] ==> "" + DumpSections(s, Sections(s)[0..]) == Dump(s)
  {
    hide Sections, DumpSections, DumpKeys;
    assert Sections(s)[0..] == Sections(s);
  }

  lemma DumpTurn(out: string, s: Slots, names: seq<string>, i: nat)
    requires i < |names|
    ensures out + DumpSections(s, names[i..]) == (out + DumpSection(s, names[i])) + DumpSections(s, names[i + 1..])
  {
    hide DumpSection;
    assert names[i..][1..] == names[i + 1..];
    Assoc(out, DumpSection(s, names[i]), DumpSections(s, names[i + 1..]));
  }

  lemma DumpEnds(out: string, s: Slots, names: seq<string>)
    ensures out + DumpSections(s, names[|names|..]) == out
  {
  }

  /** The switch of iniparser_load. */
  method Store(d: Dict, line: Line, section: string, errs: nat) returns (section': string, errs': nat)
    requires d.Valid()
    modifies d, d.val, d.key, d.hash
    ensures d.Valid() && Parsed(section', d.Slots(), errs') == Absorb(line, Parsed(section, old(d.Slots()), errs))
    ensures (d.val == old(d.val) && d.key == old(d.key) && d.hash == old(d.hash))
            || (fresh(d.val) && fresh(d.key) && fresh(d.hash))
  {
    hide SetIn, Dict.Slots, Dict.Valid, Dict.Shape;
    section', errs' := section, errs;
    match line {
      case Empty =>
      case Comment =>
      case Section(name) =>
        if name.Some? {
          section' := name.value;
        }
        var memErr := d.Set(Some(section'), None);
      case Value(key, val) =>
        var memErr := d.Set(Some(section + ":" + key), Some(val));
      case Error =>
        errs' := errs + 1;
    }
  }

  lemma LoadBegins(text: string)
    ensures LoadFrom(text, "", Parsed("", Empties(DICTMINSZ), 0)) == Load(text)
  {
  }

  lemma LoadTurns(rest: string, pending: string, p: Parsed)
    requires |pending| < ASCIILINESZ - 1
    ensures rest == "" ==> LoadFrom(rest, pending, p) == if p.errs > 0 then None else Some(p.slots)
    ensures rest != "" ==>
              var turn := OneTurn(rest, pending, p);
              LoadFrom(rest, pending, p)
              == if turn.TooLong? then None else LoadFrom(turn.rest, turn.pending, turn.parsed)
  {
    hide OneTurn, FGets, Absorb, ParseLine, CutSpace;
  }

  /** iniparser_load, from the text of the file. */
  method LoadIni(text: string) returns (dict: Dict?)
    ensures dict == null <==> Load(text).None?
    ensures dict != null ==> fresh(dict) && dict.Valid() && fresh(dict.val) && fresh(dict.key) && fresh(dict.hash)
    ensures dict != null ==> dict.Slots() == Load(text).value
  {
    hide CutSpace, ParseLine, SetIn, FGets, Empties, Absorb, Load, LoadFrom, Dict.Slots, Dict.Shape, Dict.Hashed,
         KeysDistinct, Count;
    var d := new Dict(0);
    var rest, pending, section, errs := text, "", "", 0;
    LoadBegins(text);
    while rest != ""
      invariant fresh(d) && d.Valid() && fresh(d.val) && fresh(d.key) && fresh(d.hash)
      invariant |pending| < ASCIILINESZ - 1
      invariant LoadFrom(rest, pending, Parsed(section, d.Slots(), errs)) == Load(text)
      decreases |rest|
    {
      LoadTurns(rest, pending, Parsed(section, d.Slots(), errs));
      var n := FGets(rest, ASCIILINESZ - |pending|);
      var line := pending + rest[..n];
      rest := rest[n..];
      if |line| <= 1 {
        continue;
      }
      if line[|line| - 1] != '\n' && n == ASCIILINESZ - |pending| - 1 {
        return null;
      }
      line := CutSpace(line);
      if line != "" && line[|line| - 1] == '\\' {
        pending := line[..|line| - 1];
        continue;
      }
      pending := "";
      section, errs := Store(d, ParseLine(line), section, errs);
    }
    LoadTurns(rest, pending, Parsed(section, d.Slots(), errs));
    if errs > 0 {
      return null;
    }
    return d;
  }
}
