/** The flags of app/preference.c, kept in a dictionary and in an ini file. */
module Preference {
  import opened Options
  import opened Dictionary
  import opened Decimals
  import opened IniLine
  import opened IniFile
  import opened IniParser

  type Map = map<string, Option<string>>

  // One entry.

  /** iniparser_getint; strtol has no result for a NULL value. */
  function GetIntOf(m: Map, key: string, notfound: Int32): Int32
    requires key in m ==> m[key].Some?
  {
    if key in m then StrToL(m[key].value) else notfound
  }

  function FullKey(section: string, key: string): string { section + ":" + key }

  /** write_profile. */
  function ProfileWritten(m: Map, section: string, key: string, value: string): Map {
    (if section in m then m else m[section := None])[FullKey(section, key) := Some(value)]
  }

  lemma FullKeySplits(section: string, key: string)
    requires ':' !in section
    ensures var full := FullKey(section, key);
            && Colon(full) == |section| < |full| && full != section
            && full[..|section|] == section && full[|section| + 1..] == key
  {
    hide Colon;
    assert section + ":" <= FullKey(section, key);
    KeySplits(FullKey(section, key), section);
  }

  lemma NewEntry(m: Map, section: string, key: string, value: string)
    requires ':' !in section && WellFormed(ProfileWritten(m, section, key, value))
    ensures NameSafe(section) && EntrySafe(key, value)
  {
    hide Colon, WellFormed, NameSafe, EntrySafe, FullKey;
    var w := ProfileWritten(m, section, key, value);
    FullKeySplits(section, key);
    SectionSafe(w, section);
    KeyWellFormed(w, FullKey(section, key));
  }

  /** An entry that was there before keeps its place. */
  lemma OldEntry(m: Map, w: Map, k: string)
    requires WellFormed(m) && k in m && k in w && w[k] == m[k] && m.Keys <= w.Keys
    ensures ItemWellFormed(w, k)
  {
  }

  lemma SectionEntry(w: Map, section: string)
    requires section in w && ':' !in section && w[section].None? && NameSafe(section)
    ensures ItemWellFormed(w, section)
  {
  }

  lemma AddedEntry(w: Map, section: string, key: string, value: string)
    requires section in w && ':' !in section && FullKey(section, key) in w && w[FullKey(section, key)] == Some(value)
    requires EntrySafe(key, value)
    ensures ItemWellFormed(w, FullKey(section, key))
  {
    hide Colon, NameSafe, EntrySafe, FullKey;
    FullKeySplits(section, key);
  }

  /** write_profile keeps a configuration well-formed exactly when what it writes is safe. */
  lemma WriteKeepsWellFormed(m: Map, section: string, key: string, value: string)
    requires WellFormed(m) && ':' !in section
    ensures WellFormed(ProfileWritten(m, section, key, value)) <==> NameSafe(section) && EntrySafe(key, value)
  {
    hide Colon, NameSafe, EntrySafe, FullKey, ItemWellFormed;
    var w := ProfileWritten(m, section, key, value);
    FullKeySplits(section, key);
    if WellFormed(w) {
      NewEntry(m, section, key, value);
    }
    if NameSafe(section) && EntrySafe(key, value) {
      if section in m {
        SectionSafe(m, section);
      }
      forall k | k in w ensures ItemWellFormed(w, k) {
        if k == FullKey(section, key) {
          AddedEntry(w, section, key, value);
        } else if k == section {
          SectionEntry(w, section);
        } else {
          OldEntry(m, w, k);
        }
      }
    }
  }

  // The flags.

  datatype Flag = InitFlag | Rs232Alarm | Rs485Alarm | DiAlarm | SmsContact | EmailContact

  function SectionOf(f: Flag): string { if f.InitFlag? then "SYSTEM" else "ALARM" }

  function KeyOf(f: Flag): string {
    match f
    case InitFlag => "init_flag"
    case Rs232Alarm => "rs232_alarm_flag"
    case Rs485Alarm => "rs485_alarm_flag"
    case DiAlarm => "di_alarm_flag"
    case SmsContact => "sms_contact_flag"
    case EmailContact => "email_contact_flag"
  }

  function FlagKey(f: Flag): string { FullKey(SectionOf(f), KeyOf(f)) }

  datatype Flags = Flags(init: Int32, rs232: Int32, rs485: Int32, di: Int32, sms: Int32, email: Int32)
  {
    function Of(f: Flag): Int32 {
      match f
      case InitFlag => init
      case Rs232Alarm => rs232
      case Rs485Alarm => rs485
      case DiAlarm => di
      case SmsContact => sms
      case EmailContact => email
    }
  }

  /** The flags that have an entry have a value. */
  ghost predicate Valued(m: Map) { forall f: Flag :: FlagKey(f) in m ==> m[FlagKey(f)].Some? }

  /** What load_system_param makes of a configuration. */
  ghost function FlagsOf(m: Map): Flags
    requires Valued(m)
  {
    Flags(GetIntOf(m, FlagKey(InitFlag), 1), GetIntOf(m, FlagKey(Rs232Alarm), 1), GetIntOf(m, FlagKey(Rs485Alarm), 1),
          GetIntOf(m, FlagKey(DiAlarm), 1), GetIntOf(m, FlagKey(SmsContact), 1), GetIntOf(m, FlagKey(EmailContact), 1))
  }

  predicate IntAt(m: Map, key: string, n: int) {
    n == if key in m && m[key].Some? then StrToL(m[key].value) else 1
  }

  /** Each flag is the number under its own name. */
  ghost predicate Shows(m: Map, flags: Flags) {
    && IntAt(m, "SYSTEM:init_flag", flags.init)
    && IntAt(m, "ALARM:rs232_alarm_flag", flags.rs232)
    && IntAt(m, "ALARM:rs485_alarm_flag", flags.rs485)
    && IntAt(m, "ALARM:di_alarm_flag", flags.di)
    && IntAt(m, "ALARM:sms_contact_flag", flags.sms)
    && IntAt(m, "ALARM:email_contact_flag", flags.email)
  }

  lemma FullNames()
    ensures FlagKey(InitFlag) == "SYSTEM:init_flag"
    ensures FlagKey(Rs232Alarm) == "ALARM:rs232_alarm_flag" && FlagKey(Rs485Alarm) == "ALARM:rs485_alarm_flag"
    ensures FlagKey(DiAlarm) == "ALARM:di_alarm_flag"
    ensures FlagKey(SmsContact) == "ALARM:sms_contact_flag" && FlagKey(EmailContact) == "ALARM:email_contact_flag"
  {
    hide FlagKey;
    InitName();
    SerialNames();
    DiName();
    ContactNames();
  }

  lemma InitName()
    ensures FlagKey(InitFlag) == "SYSTEM:init_flag"
  {
  }

  lemma SerialNames()
    ensures FlagKey(Rs232Alarm) == "ALARM:rs232_alarm_flag" && FlagKey(Rs485Alarm) == "ALARM:rs485_alarm_flag"
  {
  }

  lemma DiName()
    ensures FlagKey(DiAlarm) == "ALARM:di_alarm_flag"
  {
  }

  lemma ContactNames()
    ensures FlagKey(SmsContact) == "ALARM:sms_contact_flag" && FlagKey(EmailContact) == "ALARM:email_contact_flag"
  {
  }

  lemma FlagsShown(m: Map)
    requires Valued(m)
    ensures Shows(m, FlagsOf(m))
  {
    hide FlagKey, StrToL;
    FullNames();
  }

  lemma SectionNames(f: Flag)
    ensures NameSafe(SectionOf(f)) && ':' !in SectionOf(f)
  {
  }

  lemma KeyNames(f: Flag)
    ensures Plain(KeyOf(f)) && |KeyOf(f)| <= 18
  {
    hide Plain;
    AlarmKeysPlain();
    OtherKeysPlain();
  }

  lemma AlarmKeysPlain()
    ensures Plain("rs232_alarm_flag") && Plain("rs485_alarm_flag") && Plain("di_alarm_flag")
  {
  }

  lemma OtherKeysPlain()
    ensures Plain("init_flag") && Plain("sms_contact_flag") && Plain("email_contact_flag")
  {
  }

  function KeyLength(f: Flag): nat {
    match f
    case InitFlag => 16
    case Rs232Alarm => 22
    case Rs485Alarm => 22
    case DiAlarm => 19
    case SmsContact => 22
    case EmailContact => 24
  }

  lemma FlagKeyShape(f: Flag)
    ensures |FlagKey(f)| == KeyLength(f) && FlagKey(f)[8] == FlagKey(f)[|SectionOf(f)| + 1..][7 - |SectionOf(f)|]
    ensures FlagKey(f)[|SectionOf(f)| + 1..] == KeyOf(f)
  {
  }

  lemma KeysDiffer(f: Flag, g: Flag)
    ensures FlagKey(f) == FlagKey(g) <==> f == g
  {
    hide FlagKey;
    FlagKeyShape(f);
    FlagKeyShape(g);
  }

  /** A key of letters, digits and underscores. */
  predicate Plain(k: string) {
    k != "" && forall i :: 0 <= i < |k| ==>
                             k[i] == '_' || '0' <= k[i] <= '9' || 'a' <= k[i] <= 'z' || 'A' <= k[i] <= 'Z'
  }

  lemma PlainEntry(k: string, n: Int32)
    requires Plain(k) && |k| < 1000
    ensures EntrySafe(k, Decimal(n))
  {
    hide Decimal;
    DecimalSafe(n);
  }

  function With(flags: Flags, f: Flag, n: Int32): (r: Flags)
    ensures r.Of(f) == n && forall g: Flag :: g != f ==> r.Of(g) == flags.Of(g)
  {
    match f
    case InitFlag => flags.(init := n)
    case Rs232Alarm => flags.(rs232 := n)
    case Rs485Alarm => flags.(rs485 := n)
    case DiAlarm => flags.(di := n)
    case SmsContact => flags.(sms := n)
    case EmailContact => flags.(email := n)
  }

  /** The configuration after a flag was set. */
  function FlagWritten(m: Map, f: Flag, n: Int32): Map { ProfileWritten(m, SectionOf(f), KeyOf(f), Decimal(n)) }

  lemma WellFormedIsValued(m: Map)
    requires WellFormed(m)
    ensures Valued(m)
  {
    hide Colon, NameSafe, EntrySafe, SectionOf, KeyOf;
    forall f: Flag | FlagKey(f) in m ensures m[FlagKey(f)].Some? {
      SectionNames(f);
      FullKeySplits(SectionOf(f), KeyOf(f));
      assert ItemWellFormed(m, FlagKey(f));
    }
  }

  lemma FlagAt(m: Map, f: Flag, n: Int32, g: Flag)
    requires Valued(m)
    ensures var w := FlagWritten(m, f, n);
            && (FlagKey(g) in w ==> w[FlagKey(g)].Some?)
            && GetIntOf(w, FlagKey(g), 1) == if g == f then n else GetIntOf(m, FlagKey(g), 1)
  {
    hide SectionOf, KeyOf, StrToL, Decimal, FullKey;
    DecimalRoundTrip(n);
    KeysDiffer(f, g);
    FlagNotSection(f, g);
  }

  /** Setting a flag changes that flag to the value set, and no other entry. */
  lemma FlagChanges(m: Map, f: Flag, n: Int32)
    requires Valued(m)
    ensures var w := FlagWritten(m, f, n);
            && Valued(w) && FlagsOf(w) == With(FlagsOf(m), f, n)
            && (forall k :: k in m && k != FlagKey(f) ==> k in w && w[k] == m[k])
            && w.Keys == m.Keys + {SectionOf(f), FlagKey(f)}
  {
    hide FlagKey, FlagWritten, GetIntOf;
    forall g: Flag
      ensures FlagKey(g) in FlagWritten(m, f, n) ==> FlagWritten(m, f, n)[FlagKey(g)].Some?
    {
      FlagAt(m, f, n, g);
    }
    FlagAt(m, f, n, InitFlag);
    FlagAt(m, f, n, Rs232Alarm);
    FlagAt(m, f, n, Rs485Alarm);
    FlagAt(m, f, n, DiAlarm);
    FlagAt(m, f, n, SmsContact);
    FlagAt(m, f, n, EmailContact);
    OthersKept(m, f, n);
  }

  lemma OthersKept(m: Map, f: Flag, n: Int32)
    ensures var w := FlagWritten(m, f, n);
            && (forall k :: k in m && k != FlagKey(f) ==> k in w && w[k] == m[k])
            && w.Keys == m.Keys + {SectionOf(f), FlagKey(f)}
  {
    hide SectionOf, KeyOf, Decimal, FullKey;
  }

  /** It keeps a configuration well-formed. */
  lemma FlagSet(m: Map, f: Flag, n: Int32)
    requires WellFormed(m)
    ensures WellFormed(FlagWritten(m, f, n)) && Valued(m) && Valued(FlagWritten(m, f, n))
  {
    hide WellFormed, Colon, NameSafe, EntrySafe, SectionOf, KeyOf, Decimal, Plain, FullKey, Valued;
    SectionNames(f);
    KeyNames(f);
    PlainEntry(KeyOf(f), n);
    FullKeySplits(SectionOf(f), KeyOf(f));
    WriteKeepsWellFormed(m, SectionOf(f), KeyOf(f), Decimal(n));
    WellFormedIsValued(m);
    WellFormedIsValued(FlagWritten(m, f, n));
  }

  lemma FlagNotSection(f: Flag, g: Flag)
    ensures FlagKey(g) != SectionOf(f)
  {
  }

  /** Printed and loaded again, a configuration in which a flag was set is the same
      configuration, whatever slots it occupies. */
  lemma SetSurvivesReload(m: Map, f: Flag, n: Int32, slots: Slots)
    requires WellFormed(m) && KeysDistinct(slots) && View(slots) == FlagWritten(m, f, n)
    ensures Load(Dump(slots)).Some? && View(Load(Dump(slots)).value) == FlagWritten(m, f, n)
    ensures FlagWritten(m, f, n).Keys >= {FlagKey(f)} && Valued(FlagWritten(m, f, n))
    ensures GetIntOf(View(Load(Dump(slots)).value), FlagKey(f), 1) == n
  {
    hide WellFormed, KeysDistinct, View, Load, Dump, FlagWritten, GetIntOf, FlagKey;
    FlagSet(m, f, n);
    FlagChanges(m, f, n);
    DumpLoads(slots);
    OneFlag(FlagWritten(m, f, n), f);
  }

  lemma OneFlag(w: Map, f: Flag)
    requires Valued(w)
    ensures GetIntOf(w, FlagKey(f), 1) == FlagsOf(w).Of(f)
  {
  }

  // Runs of the setters.

  function FlagsAfter(flags: Flags, sets: seq<(Flag, Int32)>): Flags {
    if sets == [] then flags
    else With(FlagsAfter(flags, sets[..|sets| - 1]), sets[|sets| - 1].0, sets[|sets| - 1].1)
  }

  function MapAfter(m: Map, sets: seq<(Flag, Int32)>): Map {
    if sets == [] then m
    else FlagWritten(MapAfter(m, sets[..|sets| - 1]), sets[|sets| - 1].0, sets[|sets| - 1].1)
  }

  /** After any settings the configuration holds the last value set of every flag, and
      every entry that is not a flag as it was. */
  lemma {:induction false} SettingsKept(m: Map, sets: seq<(Flag, Int32)>)
    requires WellFormed(m)
    ensures var w := MapAfter(m, sets);
            && WellFormed(w) && Valued(m) && Valued(w)
            && FlagsOf(w) == FlagsAfter(FlagsOf(m), sets)
            && forall k :: k in m && (forall f: Flag :: k != FlagKey(f)) ==> k in w && w[k] == m[k]
    decreases |sets|
  {
    hide WellFormed, Valued, FlagsOf, FlagWritten, FlagKey, With;
    WellFormedIsValued(m);
    if sets != [] {
      var before := sets[..|sets| - 1];
      SettingsKept(m, before);
      FlagSet(MapAfter(m, before), sets[|sets| - 1].0, sets[|sets| - 1].1);
      FlagChanges(MapAfter(m, before), sets[|sets| - 1].0, sets[|sets| - 1].1);
    }
  }

  // The loops and objects.

  /** iniparser_getint. */
  method GetInt(d: Dict?, key: string, notfound: Int32) returns (n: Int32)
    requires d != null ==> d.Valid() && (key in d.Map() ==> d.Map()[key].Some?)
    ensures n == if d == null then notfound else GetIntOf(d.Map(), key, notfound)
  {
    hide StrToL, View, Dict.Shape, Dict.Slots;
    if d == null {
      return notfound;
    }
    var str := d.Get(key);
    if str.None? {
      return notfound;
    }
    return StrToL(str.value.value);
  }

  method WriteProfile(d: Dict?, section: string, key: string, value: string)
    requires d != null ==> d.Valid()
    modifies if d == null then {} else {d, d.val, d.key, d.hash}
    ensures d != null ==> d.Valid() && d.Map() == ProfileWritten(old(d.Map()), section, key, value)
    ensures d != null ==> (d.val == old(d.val) && d.key == old(d.key) && d.hash == old(d.hash))
                          || (fresh(d.val) && fresh(d.key) && fresh(d.hash))
  {
    hide View, Dict.Shape, Dict.Slots, Dict.Hashed, SetIn, Count, KeysDistinct;
    if d == null {
      return;
    }
    var found := FindEntry(d, section);
    if !found {
      var ret := d.Set(Some(section), None);
    }
    var ret := d.Set(Some(section + ":" + key), Some(value));
  }

  class Preferences {
    /** NULL when the file could not be loaded. */
    var dic: Dict?
    var flags: Flags
    /** The text of the ini file. */
    var file: string

    ghost function Arrays(): set<object>
      reads this, dic
    {
      if dic == null then {} else var d: Dict := dic; {d, d.val, d.key, d.hash}
    }

    /** The flags are those of the configuration. */
    ghost predicate Valid()
      reads this, dic, Arrays()
    {
      dic != null ==> dic.Valid() && Valued(dic.Map()) && flags == FlagsOf(dic.Map())
    }

    ghost predicate Shape()
      reads this, dic, Arrays()
    {
      dic != null ==> dic.Shape()
    }

    ghost predicate IsWellFormed()
      requires Shape()
      reads this, dic, Arrays()
    {
      dic != null && WellFormed(dic.Map())
    }

    /** The file loads as the configuration in memory. */
    ghost predicate Saved()
      requires Shape()
      reads this, dic, Arrays()
    {
      dic != null && Load(file).Some? && View(Load(file).value) == dic.Map()
    }

    method LoadSystemParam() returns (loaded: Flags)
      requires dic != null ==> dic.Valid() && Valued(dic.Map())
      ensures dic == null ==> loaded == Flags(1, 1, 1, 1, 1, 1)
      ensures dic != null ==> loaded == FlagsOf(dic.Map())
    {
      hide View, Dict.Shape, Dict.Slots, Dict.Hashed, Count, KeysDistinct, FlagKey, GetIntOf;
      var init := GetInt(dic, FlagKey(InitFlag), 1);
      var rs232 := GetInt(dic, FlagKey(Rs232Alarm), 1);
      var rs485 := GetInt(dic, FlagKey(Rs485Alarm), 1);
      var di := GetInt(dic, FlagKey(DiAlarm), 1);
      var sms := GetInt(dic, FlagKey(SmsContact), 1);
      var email := GetInt(dic, FlagKey(EmailContact), 1);
      loaded := Flags(init, rs232, rs485, di, sms, email);
    }

    /** preference_create.  A file may name a flag as a section, which leaves it without a
        value for strtol to read. */
    constructor (text: string)
      requires Load(text).Some? ==> Valued(View(Load(text).value))
      ensures Valid() && file == text
      ensures dic == null <==> Load(text).None?
      ensures dic == null ==> flags == Flags(1, 1, 1, 1, 1, 1)
      ensures dic != null ==> dic.Map() == View(Load(text).value) && Shows(dic.Map(), flags)
    {
      hide View, Dict.Shape, Dict.Slots, Dict.Hashed, Count, KeysDistinct, Load, WellFormed, Valued, FlagsOf, Shows;
      var d := LoadIni(text);
      dic, file := d, text;
      flags := Flags(1, 1, 1, 1, 1, 1);
      new;
      flags := LoadSystemParam();
      if dic != null {
        FlagsShown(dic.Map());
      }
    }

    /** dump_profile; `opens` says whether the file can be opened. */
    method DumpProfile(opens: bool)
      requires dic != null ==> dic.Valid()
      modifies `file
      ensures !opens ==> file == old(file)
      ensures opens ==> file == if dic == null then "" else Dump(dic.Slots())
    {
      hide View, Dict.Shape, Dict.Slots, Dict.Hashed, Count, KeysDistinct, Dump;
      if opens {
        file := "";
        if dic != null {
          var text := DumpIni(dic);
          file := text;
        }
      }
    }

    /** The six set_*_flag_preference functions differ in the flag only. */
    method SetFlag(f: Flag, n: Int32, opens: bool)
      requires Valid()
      modifies this, Arrays()
      ensures Valid() && dic == old(dic) && flags == With(old(flags), f, n)
      ensures dic != null ==> dic.Map() == FlagWritten(old(dic.Map()), f, n) && Shows(dic.Map(), flags)
      ensures !opens ==> file == old(file)
      ensures opens && dic == null ==> file == ""
      ensures Shape()
      ensures opens && dic != null ==> file == Dump(dic.Slots())
      ensures old(Shape() && IsWellFormed()) ==> IsWellFormed() && (opens ==> Saved())
    {
      hide View, Dict.Shape, Dict.Slots, Dict.Hashed, Count, KeysDistinct, WellFormed, Valued, FlagsOf, With,
           ProfileWritten, Load, Dump, Shows;
      flags := With(flags, f, n);
      ghost var wellFormed := dic != null && WellFormed(dic.Map());
      if dic != null {
        FlagChanges(dic.Map(), f, n);
        FlagsShown(FlagWritten(dic.Map(), f, n));
      }
      if wellFormed {
        FlagSet(dic.Map(), f, n);
      }
      WriteProfile(dic, SectionOf(f), KeyOf(f), Decimal(n));
      DumpProfile(opens);
      if wellFormed {
        DumpLoads(dic.Slots());
      }
    }
  }
}
