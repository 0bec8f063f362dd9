/** Blanks and lines of app/iniparser.c. */
module IniLine {
  import opened Options

  /** isspace in the C locale. */
  predicate IsSpace(c: char) {
    c == ' ' || c == '\t' || c == '\n' || c == '\U{0B}' || c == '\U{0C}' || c == '\r'
  }

  predicate AllSpace(s: string) { forall i :: 0 <= i < |s| ==> IsSpace(s[i]) }

  function SkipSpace(s: string): (r: string)
    ensures |r| <= |s| && r == s[|s| - |r|..] && AllSpace(s[..|s| - |r|])
    ensures r == "" || !IsSpace(r[0])
  {
    if s != "" && IsSpace(s[0]) then
      var r := SkipSpace(s[1..]);
      var n := |s| - |r|;
      assert s[1..][n - 1..] == s[n..] && s[..n] == [s[0]] + s[1..][..n - 1];
      r
    else s
  }

  function CutSpace(s: string): (r: string)
    ensures r <= s && AllSpace(s[|r|..])
    ensures r == "" || !IsSpace(r[|r| - 1])
  {
    if s != "" && IsSpace(s[|s| - 1]) then CutSpace(s[..|s| - 1]) else s
  }

  /** strstrip. */
  function Strip(s: string): string { CutSpace(SkipSpace(s)) }

  predicate Trimmed(s: string) { s == "" || (!IsSpace(s[0]) && !IsSpace(s[|s| - 1])) }

  lemma {:induction false} SkipOf(a: string, s: string)
    requires AllSpace(a) && (s == "" || !IsSpace(s[0]))
    ensures SkipSpace(a + s) == s
    decreases |a|
  {
    if a == "" {
      assert a + s == s;
    } else {
      assert (a + s)[1..] == a[1..] + s;
      SkipOf(a[1..], s);
    }
  }

  lemma {:induction false} CutOf(s: string, b: string)
    requires AllSpace(b) && (s == "" || !IsSpace(s[|s| - 1]))
    ensures CutSpace(s + b) == s
    decreases |b|
  {
    if b == "" {
      assert s + b == s;
    } else {
      assert (s + b)[..|s + b| - 1] == s + b[..|b| - 1];
      CutOf(s, b[..|b| - 1]);
    }
  }

  /** strstrip takes off exactly the blanks around a trimmed string. */
  lemma StripOf(a: string, s: string, b: string)
    requires AllSpace(a) && AllSpace(b) && Trimmed(s)
    ensures Strip(a + s + b) == s
  {
    if s == "" {
      assert AllSpace(a + b) && a + s + b == (a + b) + "";
      SkipOf(a + b, "");
    } else {
      assert a + s + b == a + (s + b);
      SkipOf(a, s + b);
      CutOf(s, b);
    }
  }

  /** What strstrip leaves is trimmed. */
  lemma StripTrims(s: string)
    ensures Trimmed(Strip(s))
  {
  }

  lemma StripIs(text: string, s: nat, last: nat)
    requires s <= last <= |text| && AllSpace(text[..s]) && AllSpace(text[last..])
    requires s < last ==> !IsSpace(text[s]) && !IsSpace(text[last - 1])
    ensures Strip(text) == text[s..last]
  {
    hide SkipSpace, CutSpace;
    assert text == text[..s] + text[s..last] + text[last..];
    StripOf(text[..s], text[s..last], text[last..]);
  }

  lemma StripKeeps(s: string)
    ensures Strip(s) == s <==> Trimmed(s)
  {
  }

  /** strstrip itself, on a buffer that holds a string up to its first NUL. */
  function Length(buf: seq<char>): (n: nat)
    requires '\0' in buf
    ensures n < |buf| && buf[n] == '\0' && forall i :: 0 <= i < n ==> buf[i] != '\0'
  {
    if buf[0] == '\0' then 0 else assert buf == [buf[0]] + buf[1..]; 1 + Length(buf[1..])
  }

  function Text(buf: seq<char>): string
    requires '\0' in buf
  {
    buf[..Length(buf)]
  }

  lemma LengthIs(buf: seq<char>, n: nat)
    requires n < |buf| && buf[n] == '\0' && forall i :: 0 <= i < n ==> buf[i] != '\0'
    ensures Length(buf) == n
  {
  }

  method StrLen(buf: array<char>) returns (n: nat)
    requires '\0' in buf[..]
    ensures n == Length(buf[..])
  {
    n := 0;
    while buf[n] != '\0'
      invariant 0 <= n <= Length(buf[..])
      decreases buf.Length - n
    {
      n := n + 1;
    }
    LengthIs(buf[..], n);
  }

  /** memmove towards the front. */
  method MemMove(buf: array<char>, s: nat, n: nat)
    requires s + n <= buf.Length
    modifies buf
    ensures buf[..n] == old(buf[s..s + n])
  {
    for i := 0 to n
      invariant buf[..i] == old(buf[s..s + i])
      invariant buf[i..] == old(buf[i..])
    {
      buf[i] := buf[s + i];
    }
  }

  lemma Ends(buf: seq<char>, kept: seq<char>)
    requires kept <= buf && kept != [] && kept[|kept| - 1] == '\0'
    requires forall i :: 0 <= i < |kept| - 1 ==> kept[i] != '\0'
    ensures '\0' in buf && Text(buf) == kept[..|kept| - 1]
  {
  }

  lemma SliceOf(buf: seq<char>, end: nat, s: nat, last: nat)
    requires s <= last <= end <= |buf|
    ensures buf[..end][s..last] == buf[s..last]
  {
  }

  /** The two loops of strstrip, over the string in `buf`. */
  method Blanks(buf: array<char>, end: nat) returns (s: nat, last: nat)
    requires '\0' in buf[..] && end == Length(buf[..])
    ensures s <= last <= end && buf[..][s..last] == Strip(Text(buf[..]))
  {
    hide IsSpace, SkipSpace, CutSpace, Strip, Length;
    ghost var text := Text(buf[..]);
    s, last := 0, end;
    while buf[s] != '\0' && IsSpace(buf[s])
      invariant 0 <= s <= end && AllSpace(text[..s])
      decreases end - s
    {
      s := s + 1;
    }
    while last > s
      invariant s <= last <= end && AllSpace(text[last..])
    {
      if !IsSpace(buf[last - 1]) {
        break;
      }
      last := last - 1;
    }
    SliceOf(buf[..], end, s, last);
    StripIs(text, s, last);
  }

  method StrStrip(buf: array<char>) returns (len: nat)
    requires '\0' in buf[..]
    modifies buf
    ensures '\0' in buf[..] && Text(buf[..]) == Strip(old(Text(buf[..]))) && len == |Text(buf[..])|
  {
    hide IsSpace, SkipSpace, CutSpace, Strip, Length;
    var end := StrLen(buf);
    var s, last := Blanks(buf, end);
    buf[last] := '\0';
    ghost var kept := buf[s..last + 1];
    assert kept[..last - s] == old(buf[..])[s..last];
    MemMove(buf, s, last - s + 1);
    len := last - s;
    assert buf[..][..len + 1] == kept;
    Ends(buf[..], kept);
  }

  // sscanf, for the directives iniparser_line uses (section 7.21.6.2 of ISO/IEC 9899:2011).

  datatype Directive =
    | White                      // a blank: skip blanks in the input
    | Lit(c: char)               // an ordinary character: must match
    | In(chars: set<char>)       // %[...]: one or more characters of the set
    | NotIn(chars: set<char>)    // %[^...]: one or more characters not of the set

  predicate Matches(d: Directive, c: char)
    requires d.In? || d.NotIn?
  {
    if d.In? then c in d.chars else c !in d.chars
  }

  /** The length of the longest prefix of `s` that a scanset matches. */
  function Span(s: string, d: Directive): (n: nat)
    requires d.In? || d.NotIn?
    ensures n <= |s| && (n < |s| ==> !Matches(d, s[n])) && forall i :: 0 <= i < n ==> Matches(d, s[i])
  {
    if s != "" && Matches(d, s[0]) then 1 + Span(s[1..], d) else 0
  }

  /** What the conversions of `format` store, up to the first that fails. */
  function Scan(s: string, format: seq<Directive>): seq<string>
    decreases |format|
  {
    if format == [] then []
    else
      match format[0]
      case White => Scan(SkipSpace(s), format[1..])
      case Lit(c) => if s != "" && s[0] == c then Scan(s[1..], format[1..]) else []
      case _ =>
        var n := Span(s, format[0]);
        if n == 0 then [] else [s[..n]] + Scan(s[n..], format[1..])
  }

  const SECTION: seq<Directive> := [Lit('['), NotIn({']'})]

  function Quoted(q: char): seq<Directive> {
    [NotIn({'='}), White, Lit('='), White, Lit(q), NotIn({q}), Lit(q)]
  }

  const BARE: seq<Directive> := [NotIn({'='}), White, Lit('='), White, NotIn({';', '#'})]
  const MARK: seq<Directive> := [NotIn({'='}), White, Lit('='), White, In({';', '#'})]
  const NOTHING: seq<Directive> := [NotIn({'='}), White, In({'='})]

  /** Two quotes, which no format reads as an empty value. */
  predicate QuotedNothing(v: string) { v == "\"\"" || v == "''" }

  /** What a line means.  `[]` is a section line without a name: it leaves the current
      section as it is. */
  datatype Line = Empty | Comment | Section(name: Option<string>) | Value(key: string, val: string) | Error

  /** iniparser_line. */
  function ParseLine(input: string): Line {
    var line := Strip(input);
    if line == "" then Empty
    else if line[0] == '#' || line[0] == ';' then Comment
    else if line[0] == '[' && line[|line| - 1] == ']' then
      var r := Scan(line, SECTION);
      Section(if |r| == 1 then Some(Strip(r[0])) else None)
    else ParseValue(line)
  }

  /** The key=value part: five formats, tried in turn. */
  function ParseValue(line: string): Line {
    Choose(Scan(line, Quoted('"')), Scan(line, Quoted('\'')), Scan(line, BARE), Scan(line, MARK), Scan(line, NOTHING))
  }

  function Choose(double: seq<string>, single: seq<string>, bare: seq<string>, mark: seq<string>,
                  nothing: seq<string>): Line {
    if |double| == 2 then Value(Strip(double[0]), double[1])
    else if |single| == 2 then Value(Strip(single[0]), single[1])
    else if |bare| == 2 then
      var v := Strip(bare[1]);
      Value(Strip(bare[0]), if QuotedNothing(v) then "" else v)
    else if |mark| == 2 then Value(Strip(mark[0]), "")
    else if |nothing| == 2 then Value(Strip(nothing[0]), "")
    else Error
  }

  // The lines iniparser_dumpsection_ini prints.

  /** When a key and a value printed on one line are read back unchanged. */
  predicate LineSafe(k: string, v: string) {
    && k != "" && Trimmed(k) && '=' !in k && k[0] != '#' && k[0] != ';'
    && !(k[0] == '[' && v != "" && v[|v| - 1] == ']')
    && Trimmed(v) && ValueSafe(v)
  }

  predicate ValueSafe(v: string) {
    && ';' !in v && '#' !in v
    && !(|v| >= 2 && (v[0] == '"' || v[0] == '\'') && v[1] != v[0])
    && v != "\"\"" && v != "''"
  }

  /** A quote, and something before the next one. */
  predicate Opens(v: string, q: char) { |v| >= 2 && v[0] == q && v[1] != q }

  /** The text between the quotes. */
  function Inside(v: string, q: char): string
    requires Opens(v, q)
  {
    v[1..1 + Span(v[1..], NotIn({q}))]
  }

  /** What the scans make of the text after `=`. */
  function ValueOf(rest: string): string {
    if Opens(rest, '"') then Inside(rest, '"')
    else if Opens(rest, '\'') then Inside(rest, '\'')
    else
      var v := Strip(rest[..Span(rest, NotIn({';', '#'}))]);
      if QuotedNothing(v) then "" else v
  }

  // One directive at a time.

  lemma ScanWhite(s: string, more: seq<Directive>)
    ensures Scan(s, [White] + more) == Scan(SkipSpace(s), more)
  {
    assert ([White] + more)[1..] == more;
  }

  lemma ScanLit(s: string, c: char, more: seq<Directive>)
    ensures Scan(s, [Lit(c)] + more) == if s != "" && s[0] == c then Scan(s[1..], more) else []
  {
    assert ([Lit(c)] + more)[1..] == more;
  }

  lemma ScanSet(s: string, d: Directive, more: seq<Directive>)
    requires d.In? || d.NotIn?
    ensures var n := Span(s, d); Scan(s, [d] + more) == if n == 0 then [] else [s[..n]] + Scan(s[n..], more)
  {
    assert ([d] + more)[1..] == more;
  }

  lemma ScanDone(s: string)
    ensures Scan(s, []) == []
  {
  }

  const KEY: Directive := NotIn({'='})

  /** The part the formats for values share. */
  function Keyed(more: seq<Directive>): seq<Directive> { [KEY] + ([White] + ([Lit('=')] + ([White] + more))) }

  lemma SkipNone(s: string)
    requires s == "" || !IsSpace(s[0])
    ensures SkipSpace(s) == s
  {
  }

  lemma ScanEquals(s: string, more: seq<Directive>)
    requires s != "" && s[0] == '='
    ensures Scan(s, [White] + ([Lit('=')] + ([White] + more))) == Scan(SkipSpace(s[1..]), more)
  {
    hide Scan, SkipSpace;
    ScanWhite(s, [Lit('=')] + ([White] + more));
    SkipNone(s);
    ScanLit(s, '=', [White] + more);
    ScanWhite(s[1..], more);
  }

  lemma ScanKey(line: string, i: nat, more: seq<Directive>)
    requires 0 < i < |line| && i == Span(line, KEY)
    ensures Scan(line, Keyed(more)) == [line[..i]] + Scan(SkipSpace(line[i + 1..]), more)
  {
    hide Scan, Span, SkipSpace;
    ScanSet(line, KEY, [White] + ([Lit('=')] + ([White] + more)));
    AtEquals(line, i);
    ScanEquals(line[i..], more);
  }

  lemma AtEquals(line: string, i: nat)
    requires i < |line| && i == Span(line, KEY)
    ensures line[i..][0] == '=' && line[i..][1..] == line[i + 1..]
  {
  }

  function QuotedTail(q: char): seq<Directive> { [Lit(q)] + ([NotIn({q})] + ([Lit(q)] + [])) }

  lemma QuotedIs(q: char)
    ensures Quoted(q) == Keyed(QuotedTail(q))
  {
  }

  lemma BareIs()
    ensures BARE == Keyed([NotIn({';', '#'})] + []) && MARK == Keyed([In({';', '#'})] + [])
  {
  }

  lemma NothingIs()
    ensures NOTHING == [KEY] + ([White] + ([In({'='})] + []))
  {
  }

  lemma ScanQuote(rest: string, q: char)
    ensures var r := Scan(rest, QuotedTail(q));
            if Opens(rest, q) then r == [Inside(rest, q)] else r == []
  {
    hide Scan;
    ScanLit(rest, q, [NotIn({q})] + ([Lit(q)] + []));
    if rest != "" {
      var n := Span(rest[1..], NotIn({q}));
      assert rest[1..][..n] == rest[1..1 + n];
      ScanSet(rest[1..], NotIn({q}), [Lit(q)] + []);
      ScanLit(rest[1..][n..], q, []);
      if rest[1..][n..] != "" {
        ScanDone(rest[1..][n..][1..]);
      }
    }
  }

  /** What the first two formats do. */
  lemma ScanQuoted(line: string, i: nat, q: char)
    requires 0 < i < |line| && i == Span(line, KEY)
    ensures var rest, r := SkipSpace(line[i + 1..]), Scan(line, Quoted(q));
            if Opens(rest, q) then r == [line[..i], Inside(rest, q)] else r == [line[..i]]
  {
    hide Scan, Span, SkipSpace, Opens, Inside, Keyed, Quoted, QuotedTail;
    QuotedIs(q);
    ScanKey(line, i, QuotedTail(q));
    ScanQuote(SkipSpace(line[i + 1..]), q);
  }

  /** What the third does. */
  lemma ScanBare(line: string, i: nat)
    requires 0 < i < |line| && i == Span(line, KEY)
    ensures var rest := SkipSpace(line[i + 1..]);
            var n := Span(rest, NotIn({';', '#'}));
            Scan(line, BARE) == if n == 0 then [line[..i]] else [line[..i], rest[..n]]
  {
    hide Scan, Span, SkipSpace;
    var rest := SkipSpace(line[i + 1..]);
    BareIs();
    ScanKey(line, i, [NotIn({';', '#'})] + []);
    ScanSet(rest, NotIn({';', '#'}), []);
    ScanDone(rest[Span(rest, NotIn({';', '#'}))..]);
  }

  /** One of the last two succeeds when the third fails. */
  lemma ScanRest(line: string, i: nat)
    requires 0 < i < |line| && i == Span(line, KEY)
    requires Span(SkipSpace(line[i + 1..]), NotIn({';', '#'})) == 0
    ensures var mark, nothing := Scan(line, MARK), Scan(line, NOTHING);
            && (|mark| == 2 || |nothing| == 2)
            && mark != [] && mark[0] == line[..i] && nothing != [] && nothing[0] == line[..i]
  {
    hide Scan, SkipSpace;
    var rest := SkipSpace(line[i + 1..]);
    BareIs();
    NothingIs();
    ScanKey(line, i, [In({';', '#'})] + []);
    ScanSet(rest, In({';', '#'}), []);
    ScanDone(rest[Span(rest, In({';', '#'}))..]);
    ScanSet(line, KEY, [White] + ([In({'='})] + []));
    ScanWhite(line[i..], [In({'='})] + []);
    assert line[i..][0] == line[i] == '=';
    SkipNone(line[i..]);
    ScanSet(line[i..], In({'='}), []);
    ScanDone(line[i..][Span(line[i..], In({'='}))..]);
  }

  lemma NoScans(line: string)
    requires var i := Span(line, KEY); i == 0 || i == |line|
    ensures ParseValue(line) == Error
  {
  }

  lemma ChooseIs(key: string, rest: string, double: seq<string>, single: seq<string>, bare: seq<string>,
                 mark: seq<string>, nothing: seq<string>)
    requires double == if Opens(rest, '"') then [key, Inside(rest, '"')] else [key]
    requires single == if Opens(rest, '\'') then [key, Inside(rest, '\'')] else [key]
    requires var n := Span(rest, NotIn({';', '#'}));
             && bare == (if n == 0 then [key] else [key, rest[..n]])
             && (n == 0 ==> |mark| == 2 || |nothing| == 2)
             && (n == 0 ==> mark != [] && mark[0] == key && nothing != [] && nothing[0] == key)
    ensures Choose(double, single, bare, mark, nothing) == Value(Strip(key), ValueOf(rest))
  {
    hide Opens, Inside, Span, Strip;
    StripKeeps("");
  }

  /** The five formats together split a line at its first `=`. */
  lemma ParseValueIs(line: string)
    ensures var i := Span(line, KEY);
            ParseValue(line) ==
            if 0 < i < |line| then Value(Strip(line[..i]), ValueOf(SkipSpace(line[i + 1..]))) else Error
  {
    hide Scan, Span, SkipSpace, Strip, Opens, Choose, Quoted, BARE, MARK, NOTHING, ValueOf;
    var i := Span(line, KEY);
    if 0 < i < |line| {
      ScanQuoted(line, i, '"');
      ScanQuoted(line, i, '\'');
      ScanBare(line, i);
      var rest := SkipSpace(line[i + 1..]);
      if Span(rest, NotIn({';', '#'})) == 0 {
        ScanRest(line, i);
      }
      ChooseIs(line[..i], rest, Scan(line, Quoted('"')), Scan(line, Quoted('\'')),
               Scan(line, BARE), Scan(line, MARK), Scan(line, NOTHING));
    } else {
      NoScans(line);
    }
  }

  // Reading printed lines back.

  lemma SpanIs(s: string, d: Directive, n: nat)
    requires d.In? || d.NotIn?
    requires n <= |s| && (n < |s| ==> !Matches(d, s[n])) && forall i :: 0 <= i < n ==> Matches(d, s[i])
    ensures Span(s, d) == n
  {
  }

  lemma StripParts(s: string) returns (a: string, b: string)
    ensures s == a + Strip(s) + b && AllSpace(a) && AllSpace(b)
  {
    hide SkipSpace, CutSpace, AllSpace, IsSpace;
    var u := SkipSpace(s);
    a, b := s[..|s| - |u|], u[|CutSpace(u)|..];
    assert s == a + u;
    assert u == CutSpace(u) + b;
  }

  function Printed(k: string, v: string): string { k + " = " + v }

  function Head(k: string): string { k + " =" }

  lemma HeadParts(k: string, rest: string)
    ensures var m := Head(k) + rest;
            && |m| == |k| + 2 + |rest| && m[..|k| + 1] == k + " " && m[|k| + 2..] == rest
            && m[|k| + 1] == '=' && m[|k|] == ' ' && forall i :: 0 <= i < |k| ==> m[i] == k[i]
  {
  }

  /** Where the formats split the line that begins with `k =`. */
  lemma KeyPart(k: string, rest: string)
    requires k != "" && Trimmed(k) && '=' !in k
    ensures var m := Head(k) + rest;
            Span(m, KEY) == |k| + 1 < |m| && Strip(m[..|k| + 1]) == k && m[|k| + 2..] == rest && m[0] == k[0]
  {
    hide Strip, Head;
    HeadParts(k, rest);
    SpanIs(Head(k) + rest, KEY, |k| + 1);
    assert k + " " == "" + k + " ";
    StripOf("", k, " ");
  }

  /** What follows `k =` when the blanks at the end are gone. */
  function Tail(a: string, t: string): string { if t == "" then "" else (" " + a) + t }

  lemma TailParts(a: string, t: string)
    requires AllSpace(a) && Trimmed(t)
    ensures SkipSpace(Tail(a, t)) == t
    ensures t != "" ==> Tail(a, t) != "" && Tail(a, t)[|Tail(a, t)| - 1] == t[|t| - 1]
  {
    hide SkipSpace;
    SkipNone("");
    SkipOf(" " + a, t);
  }

  lemma TrimmedLine(k: string, rest: string)
    requires k != "" && Trimmed(k) && (rest != "" ==> !IsSpace(rest[|rest| - 1]))
    ensures var m := Head(k) + rest;
            Trimmed(m) && m[|m| - 1] == if rest == "" then '=' else rest[|rest| - 1]
  {
  }

  lemma BareOf(k: string, a: string, t: string, b: string)
    ensures Printed(k, a + t + b) == "" + (Head(k) + Tail(a, t)) + (if t == "" then " " + a + b else b)
  {
  }

  lemma PrintedStrips(k: string, v: string) returns (a: string)
    requires k != "" && Trimmed(k)
    ensures AllSpace(a) && Strip(Printed(k, v)) == Head(k) + Tail(a, Strip(v))
  {
    hide SkipSpace, CutSpace, Strip, Trimmed, Head, Printed, Tail;
    var t := Strip(v);
    StripTrims(v);
    var b;
    a, b := StripParts(v);
    BareOf(k, a, t, b);
    TailParts(a, t);
    TailEnds(a, t);
    TrimmedLine(k, Tail(a, t));
    StripOf("", Head(k) + Tail(a, t), if t == "" then " " + a + b else b);
  }

  lemma TailEnds(a: string, t: string)
    requires Trimmed(t)
    ensures Tail(a, t) != "" ==> !IsSpace(Tail(a, t)[|Tail(a, t)| - 1])
    ensures Tail(a, t) == "" <==> t == ""
  {
  }

  lemma PrintedLine(k: string, v: string)
    requires k != "" && Trimmed(k) && '=' !in k
    ensures var line, t := Strip(Printed(k, v)), Strip(v);
            && Span(line, KEY) == |k| + 1 < |line|
            && Strip(line[..|k| + 1]) == k && SkipSpace(line[|k| + 2..]) == t
            && line[0] == k[0] && line[|line| - 1] == if t == "" then '=' else t[|t| - 1]
  {
    hide SkipSpace, CutSpace, Strip, Span, Trimmed, Head, Printed, Tail;
    var t := Strip(v);
    StripTrims(v);
    var a := PrintedStrips(k, v);
    TailParts(a, t);
    TailEnds(a, t);
    TrimmedLine(k, Tail(a, t));
    KeyPart(k, Tail(a, t));
  }

  lemma ParsePrinted(k: string, v: string)
    requires k != "" && Trimmed(k) && '=' !in k
    ensures var t := Strip(v);
            if k[0] == '#' || k[0] == ';' then ParseLine(Printed(k, v)) == Comment
            else if k[0] == '[' && t != "" && t[|t| - 1] == ']' then ParseLine(Printed(k, v)).Section?
            else ParseLine(Printed(k, v)) == Value(k, ValueOf(t))
  {
    hide Printed, Strip, SkipSpace, ValueOf, Span, ParseValue, Trimmed;
    PrintedLine(k, v);
    ParseValueIs(Strip(Printed(k, v)));
  }

  lemma InsideLacks(v: string, q: char)
    requires Opens(v, q)
    ensures q !in Inside(v, q)
  {
  }

  /** A trimmed value is read back unchanged exactly when it is safe. */
  lemma ValueOfIs(v: string)
    ensures ValueOf(Strip(v)) == v <==> Trimmed(v) && ValueSafe(v)
  {
    hide SkipSpace, CutSpace, Strip, Inside, Span, Trimmed;
    var r := Strip(v);
    StripKeeps(v);
    StripTrims(v);
    var a, b := StripParts(v);
    var d := NotIn({';', '#'});
    var n := Span(r, d);
    if Opens(r, '"') {
      InsideLacks(r, '"');
      assert v[|a|] == '"';
    } else if Opens(r, '\'') {
      InsideLacks(r, '\'');
      assert v[|a|] == '\'';
    } else {
      PlainValue(v, n);
    }
  }

  lemma PlainValue(v: string, n: nat)
    requires var r := Strip(v); !Opens(r, '"') && !Opens(r, '\'') && n == Span(r, NotIn({';', '#'}))
    ensures ValueOf(Strip(v)) == v <==> Trimmed(v) && ValueSafe(v)
  {
    hide SkipSpace, CutSpace, Strip, Inside, Span;
    var r := Strip(v);
    StripKeeps(v);
    StripKeeps(r);
    StripTrims(v);
    if n == |r| {
      assert r[..n] == r;
      assert forall i :: 0 <= i < n ==> Matches(NotIn({';', '#'}), r[i]);
      assert ';' !in r && '#' !in r;
    } else {
      assert r[n] == ';' || r[n] == '#';
      StripLacks(r[..n], ';');
      StripLacks(r[..n], '#');
      StripOnly(v, r[n]);
    }
  }

  lemma StripLacks(s: string, c: char)
    requires c !in s
    ensures c !in Strip(s)
  {
  }

  lemma StripOnly(s: string, c: char)
    requires c in Strip(s)
    ensures c in s
  {
  }

  // The two main results.

  /** A key and value printed on a line are read back exactly when they are safe. */
  lemma LineRoundTrip(k: string, v: string)
    ensures ParseLine(Printed(k, v)) == Value(k, v) <==> LineSafe(k, v)
  {
    hide Printed, Strip, ValueOf, ValueSafe, ParseValue;
    if k != "" && Trimmed(k) && '=' !in k {
      ParsePrinted(k, v);
      ValueOfIs(v);
      StripKeeps(v);
      StripTrims(v);
    } else if ParseLine(Printed(k, v)) == Value(k, v) {
      GoodKey(k, v);
    }
  }

  lemma GoodKey(k: string, v: string)
    ensures ParseLine(Printed(k, v)).Value? && ParseLine(Printed(k, v)).key == k ==> k != "" && Trimmed(k) && '=' !in k
  {
    hide Printed, Strip, ValueOf, Span, SkipSpace, ParseValue;
    var line := Strip(Printed(k, v));
    ParseValueIs(line);
    var i := Span(line, KEY);
    StripTrims(Printed(k, v));
    if line != "" && 0 < i {
      StripTrims(line[..i]);
      assert forall j :: 0 <= j < i ==> Matches(KEY, line[j]);
      assert '=' !in line[..i];
      StripLacks(line[..i], '=');
      StripLeaves(line[..i]);
    }
  }

  lemma StripLeaves(s: string)
    requires s != "" && !IsSpace(s[0])
    ensures Strip(s) != ""
  {
  }

  function Bracketed(s: string): string { "[" + s + "]" }

  /** The part of the name a bracketed name gives back. */
  function UpToBracket(s: string): string { (s + "]")[..Span(s + "]", NotIn({']'}))] }

  lemma UpToBracketIs(s: string)
    ensures ']' !in UpToBracket(s) && (']' !in s <==> UpToBracket(s) == s)
  {
    hide Span;
    var d, n := NotIn({']'}), Span(s + "]", NotIn({']'}));
    assert forall i :: 0 <= i < n ==> Matches(d, (s + "]")[i]);
    if ']' !in s {
      SpanIs(s + "]", d, |s|);
    }
  }

  lemma ScanBracketed(s: string)
    ensures Scan(Bracketed(s), SECTION) == if UpToBracket(s) == "" then [] else [UpToBracket(s)]
  {
    hide Span, Scan;
    var line, d := Bracketed(s), NotIn({']'});
    assert SECTION == [Lit('[')] + ([d] + []);
    assert line[1..] == s + "]";
    ScanLit(line, '[', [d] + []);
    ScanSet(line[1..], d, []);
    ScanDone(line[1..][Span(line[1..], d)..]);
  }

  lemma ParseBracketed(s: string)
    ensures ParseLine(Bracketed(s)) == Section(if UpToBracket(s) == "" then None else Some(Strip(UpToBracket(s))))
  {
    hide Strip, Scan, UpToBracket;
    StripKeeps(Bracketed(s));
    ScanBracketed(s);
  }

  /** A section name is read back exactly when it is not empty, is trimmed, and holds
      no closing bracket. */
  lemma SectionRoundTrip(s: string)
    ensures ParseLine(Bracketed(s)) == Section(Some(s)) <==> s != "" && Trimmed(s) && ']' !in s
  {
    hide Strip, UpToBracket, ParseLine;
    ParseBracketed(s);
    UpToBracketIs(s);
    var name := UpToBracket(s);
    StripLacks(name, ']');
    StripTrims(name);
    StripKeeps(s);
  }

  // What any line is read as.

  /** A line that is neither blank, nor a comment, nor in brackets, and has no key in front
      of a `=`. */
  predicate SyntaxError(input: string) {
    var s := Strip(input);
    && s != "" && s[0] != '#' && s[0] != ';'
    && !(s[0] == '[' && s[|s| - 1] == ']')
    && ('=' !in s || s[0] == '=')
  }

  lemma StripBlank(s: string)
    ensures Strip(s) == "" <==> AllSpace(s)
  {
    hide SkipSpace, CutSpace, Strip, IsSpace;
    var a, b := StripParts(s);
    if AllSpace(s) {
      assert s == "" + "" + s;
      StripOf("", "", s);
    }
  }

  lemma KeyEnds(line: string)
    ensures var i := Span(line, KEY); 0 < i < |line| <==> line != "" && '=' in line && line[0] != '='
  {
    var i := Span(line, KEY);
    assert forall j :: 0 <= j < i ==> Matches(KEY, line[j]);
  }

  /** The kinds of lines. */
  lemma LineKind(input: string)
    ensures var s, line := Strip(input), ParseLine(input);
            && (line == Empty <==> AllSpace(input))
            && (line == Comment <==> s != "" && (s[0] == '#' || s[0] == ';'))
            && (line.Section? <==> s != "" && s[0] == '[' && s[|s| - 1] == ']')
            && (line == Error <==> SyntaxError(input))
  {
    hide SkipSpace, CutSpace, Strip, Scan, Span, ParseValue, ValueOf;
    StripBlank(input);
    ParseValueIs(Strip(input));
    KeyEnds(Strip(input));
  }

  /** Blanks in front of a comment do not matter, nor what is in it. */
  lemma CommentLine(a: string, c: char, rest: string)
    requires AllSpace(a) && (c == '#' || c == ';')
    ensures ParseLine(a + [c] + rest) == Comment
  {
    hide SkipSpace, CutSpace, Scan, ParseValue;
    assert a + [c] + rest == a + ([c] + rest);
    SkipOf(a, [c] + rest);
    CutKeeps([c] + rest, 0);
  }

  lemma {:induction false} CutKeeps(s: string, i: nat)
    requires i < |s| && !IsSpace(s[i])
    ensures i < |CutSpace(s)| && CutSpace(s)[i] == s[i]
    decreases |s|
  {
    if IsSpace(s[|s| - 1]) {
      CutKeeps(s[..|s| - 1], i);
    }
  }

  /** A key that does not make its line a comment or a section. */
  predicate KeySafe(k: string) {
    k != "" && Trimmed(k) && '=' !in k && k[0] != '#' && k[0] != ';' && k[0] != '['
  }

  /** Blanks around a text do not matter, whatever follows its last character. */
  lemma StripFront(a: string, head: string, tail: string) returns (t: string)
    requires AllSpace(a) && head != "" && !IsSpace(head[0]) && !IsSpace(head[|head| - 1])
    ensures Strip(a + head + tail) == head + t
  {
    hide CutSpace, Strip, AllSpace, IsSpace;
    t := CutSpace(tail);
    var b := tail[|t|..];
    assert a + head + tail == a + (head + t) + b;
    FrontTrimmed(head, t);
    StripOf(a, head + t, b);
  }

  lemma FrontTrimmed(head: string, t: string)
    requires head != "" && !IsSpace(head[0]) && !IsSpace(head[|head| - 1])
    requires t == "" || !IsSpace(t[|t| - 1])
    ensures Trimmed(head + t)
  {
  }

  lemma InsideQuotes(q: char, v: string, t: string)
    requires v != "" && q !in v
    ensures Opens([q] + v + [q] + t, q) && Inside([q] + v + [q] + t, q) == v
  {
    hide Span;
    var w := [q] + v + [q] + t;
    assert w[1] == v[0] && w[1..] == v + ([q] + t);
    SpanIs(v + ([q] + t), NotIn({q}), |v|);
    assert w[1..1 + |v|] == v;
  }

  lemma QuotedValue(q: char, v: string, t: string)
    requires (q == '"' || q == '\'') && v != "" && q !in v
    ensures ValueOf([q] + v + [q] + t) == v
  {
    hide Inside, Strip, Span;
    InsideQuotes(q, v, t);
  }

  /** A text in quotes is read as it is, comment characters and all, and what follows the
      quote is left out. */
  lemma QuotedLine(k: string, q: char, v: string, tail: string)
    requires KeySafe(k) && (q == '"' || q == '\'') && v != "" && q !in v
    ensures ParseLine(Printed(k, [q] + v + [q] + tail)) == Value(k, v)
  {
    hide CutSpace, Strip, Printed, ParseLine, ValueOf, Trimmed;
    ParsePrinted(k, [q] + v + [q] + tail);
    var t := StripFront("", [q] + v + [q], tail);
    assert "" + ([q] + v + [q]) + tail == [q] + v + [q] + tail;
    QuotedValue(q, v, t);
  }

  /** Two quotes are an empty value. */
  lemma EmptyQuotes(k: string, q: char)
    requires KeySafe(k) && (q == '"' || q == '\'')
    ensures ParseLine(Printed(k, [q, q])) == Value(k, "")
  {
    hide CutSpace, Strip, Printed, ParseLine, Span;
    ParsePrinted(k, [q, q]);
    assert "" + [q, q] + "" == [q, q];
    StripOf("", [q, q], "");
    SpanIs([q, q], NotIn({';', '#'}), 2);
    assert [q, q][..2] == [q, q];
    assert q == '"' ==> [q, q] == "\"\"";
    assert q == '\'' ==> [q, q] == "''";
  }

  lemma CommentedValue(u: string, v: string, c: char, t: string)
    requires ';' !in u && '#' !in u && (c == ';' || c == '#') && Strip(u) == v
    requires u != "" ==> u[0] != '"' && u[0] != '\''
    requires v != "\"\"" && v != "''"
    ensures ValueOf(u + [c] + t) == v
  {
    hide Strip, Span;
    var w := u + [c] + t;
    assert u != "" ==> w[0] == u[0];
    SpanIs(w, NotIn({';', '#'}), |u|);
    assert w[..|u|] == u;
  }

  /** Behind a value that is not in quotes, blanks and a comment are left out. */
  lemma CommentedLine(k: string, v: string, b: string, c: char, tail: string)
    requires KeySafe(k) && Trimmed(v) && ';' !in v && '#' !in v && AllSpace(b) && (c == ';' || c == '#')
    requires v != "" ==> v[0] != '"' && v[0] != '\''
    ensures ParseLine(Printed(k, v + b + [c] + tail)) == Value(k, v)
  {
    hide CutSpace, Strip, Printed, ParseLine, ValueOf;
    ParsePrinted(k, v + b + [c] + tail);
    StripOf("", v, if v == "" then "" else b);
    NoMarks(b);
    if v == "" {
      var t := StripFront(b, [c], tail);
      assert b + [c] + tail == v + b + [c] + tail;
      assert "" + "" + "" == "" && "" + [c] + t == [c] + t;
      CommentedValue("", v, c, t);
    } else {
      var t := StripFront("", v + b + [c], tail);
      assert "" + (v + b + [c]) + tail == v + b + [c] + tail;
      assert "" + v + b == v + b;
      CommentedValue(v + b, v, c, t);
    }
  }

  lemma NoMarks(b: string)
    requires AllSpace(b)
    ensures ';' !in b && '#' !in b
  {
  }
}
