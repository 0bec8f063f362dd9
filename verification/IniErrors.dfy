/** When iniparser_load refuses a file. */
module IniErrors {
  import opened Options
  import opened Dictionary
  import opened IniLine
  import opened IniFile

  /** A logical line: what the line buffer holds when it is looked at, continuation lines
      joined and blanks at the end cut off, or a line that does not fit. */
  datatype Logical = TooLong | Fitting(text: string)

  /** The logical lines of a file, up to the first that does not fit.  A line of one
      character is skipped when nothing is pending, and what the last line leaves pending
      is dropped. */
  function Lines(text: string, pending: string): seq<Logical>
    requires |pending| < ASCIILINESZ - 1
    decreases |text|
  {
    if text == "" then []
    else
      var n := FGets(text, ASCIILINESZ - |pending|);
      var line, rest := pending + text[..n], text[n..];
      var cut := CutSpace(line);
      if |line| <= 1 then Lines(rest, pending)
      else if line[|line| - 1] != '\n' && |line| == ASCIILINESZ - 1 then [Logical.TooLong]
      else if cut != "" && cut[|cut| - 1] == '\\' then Lines(rest, cut[..|cut| - 1])
      else [Fitting(cut)] + Lines(rest, "")
  }

  predicate Refused(l: Logical) { l.TooLong? || SyntaxError(l.text) }

  lemma AbsorbErrs(l: string, p: Parsed)
    ensures Absorb(ParseLine(l), p).errs == p.errs + if SyntaxError(l) then 1 else 0
  {
    hide ParseLine, SyntaxError, SetIn;
    LineKind(l);
  }

  ghost predicate AnyRefused(lines: seq<Logical>) { exists l :: l in lines && Refused(l) }

  lemma OneMoreLine(l: Logical, lines: seq<Logical>)
    ensures AnyRefused([l] + lines) <==> Refused(l) || AnyRefused(lines)
  {
    hide Refused;
    assert l in [l] + lines;
  }

  lemma TurnLines(text: string, pending: string, p: Parsed)
    requires |pending| < ASCIILINESZ - 1 && text != ""
    ensures var t := OneTurn(text, pending, p);
            if t.TooLong? then Lines(text, pending) == [Logical.TooLong]
            else (p.errs > 0 || AnyRefused(Lines(text, pending))
                  <==> t.parsed.errs > 0 || AnyRefused(Lines(t.rest, t.pending)))
  {
    hide CutSpace, FGets, ParseLine, Absorb, SyntaxError, AnyRefused;
    var n := FGets(text, ASCIILINESZ - |pending|);
    var cut := CutSpace(pending + text[..n]);
    AbsorbErrs(cut, p);
    OneMoreLine(Fitting(cut), Lines(text[n..], ""));
  }

  lemma {:induction false} RefusedFrom(text: string, pending: string, p: Parsed)
    requires |pending| < ASCIILINESZ - 1
    ensures LoadFrom(text, pending, p).None? <==> p.errs > 0 || AnyRefused(Lines(text, pending))
    decreases |text|
  {
    hide OneTurn, Lines, AnyRefused;
    if text == "" {
      NoLines(pending);
    } else {
      TurnLines(text, pending, p);
      var t := OneTurn(text, pending, p);
      if t.TooLong? {
        OneMoreLine(Logical.TooLong, []);
        assert [Logical.TooLong] + [] == [Logical.TooLong];
      } else {
        RefusedFrom(t.rest, t.pending, t.parsed);
      }
    }
  }

  lemma NoLines(pending: string)
    requires |pending| < ASCIILINESZ - 1
    ensures !AnyRefused(Lines("", pending))
  {
  }

  /** A file is refused exactly when one of its logical lines does not fit the buffer or is
      in error. */
  lemma RefusedExactly(text: string)
    ensures Load(text).None? <==> exists l :: l in Lines(text, "") && Refused(l)
  {
    hide Refused, Lines, LoadFrom;
    RefusedFrom(text, "", Parsed("", Empties(DICTMINSZ), 0));
  }

  // Files without continuation lines.

  /** A line of at most 1022 characters that does not end in a backslash. */
  predicate Plain(line: string) {
    var cut := CutSpace(line);
    '\n' !in line && |line| <= 1022 && (cut == "" || cut[|cut| - 1] != '\\')
  }

  function Joined(lines: seq<string>): string {
    if lines == [] then "" else lines[0] + "\n" + Joined(lines[1..])
  }

  function AbsorbAll(lines: seq<string>, p: Parsed): Parsed
    decreases |lines|
  {
    if lines == [] then p
    else if lines[0] == "" then AbsorbAll(lines[1..], p)
    else AbsorbAll(lines[1..], Absorb(ParseLine(lines[0]), p))
  }

  lemma {:induction false} ReadAll(lines: seq<string>, more: string, p: Parsed)
    requires forall i :: 0 <= i < |lines| ==> Plain(lines[i])
    ensures LoadFrom(Joined(lines) + more, "", p) == LoadFrom(more, "", AbsorbAll(lines, p))
    decreases |lines|
  {
    hide LoadFrom, Absorb, ParseLine, CutSpace;
    if lines == [] {
      assert Joined(lines) + more == more;
    } else {
      var rest := Joined(lines[1..]) + more;
      assert Plain(lines[0]);
      assert Joined(lines) + more == lines[0] + "\n" + rest;
      if lines[0] == "" {
        assert lines[0] + "\n" + rest == "\n" + rest;
        ReadBlank(rest, p);
        ReadAll(lines[1..], more, p);
      } else {
        ReadLine(lines[0], rest, p);
        ReadAll(lines[1..], more, Absorb(ParseLine(lines[0]), p));
      }
    }
  }

  lemma BlankIsNoError()
    ensures !SyntaxError("")
  {
  }

  lemma {:induction false} ErrsOfAll(lines: seq<string>, p: Parsed)
    ensures AbsorbAll(lines, p).errs > 0 <==> p.errs > 0 || exists i :: 0 <= i < |lines| && SyntaxError(lines[i])
    decreases |lines|
  {
    hide Absorb, ParseLine, SyntaxError;
    if lines != [] {
      BlankIsNoError();
      AbsorbErrs(lines[0], p);
      ErrsOfAll(lines[1..], if lines[0] == "" then p else Absorb(ParseLine(lines[0]), p));
      assert forall i :: 0 <= i < |lines| ==> SyntaxError(lines[i]) ==> i == 0 || lines[1..][i - 1] == lines[i];
    }
  }

  /** A file of such lines loads exactly when none of them is in error. */
  lemma PlainFileLoads(lines: seq<string>)
    requires forall i :: 0 <= i < |lines| ==> Plain(lines[i])
    ensures Load(Joined(lines)).Some? <==> forall i :: 0 <= i < |lines| ==> !SyntaxError(lines[i])
  {
    hide Plain, SyntaxError, AbsorbAll, Joined;
    var p := Parsed("", Empties(DICTMINSZ), 0);
    assert Joined(lines) + "" == Joined(lines);
    ReadAll(lines, "", p);
    ErrsOfAll(lines, p);
  }

  /** One line in error is enough, whatever follows it. */
  lemma BadLineRefuses(lines: seq<string>, i: nat, after: string)
    requires i < |lines| && SyntaxError(lines[i]) && forall j :: 0 <= j < |lines| ==> Plain(lines[j])
    ensures Load(Joined(lines) + after).None?
  {
    hide Plain, SyntaxError, AbsorbAll, Joined;
    var p := Parsed("", Empties(DICTMINSZ), 0);
    ReadAll(lines, after, p);
    ErrsOfAll(lines, p);
    RefusedFrom(after, "", AbsorbAll(lines, p));
  }

  lemma {:induction false} LongLine(long: string, after: string)
    requires '\n' !in long
    ensures LineLength(long + after) >= |long|
    decreases |long|
  {
    if long != "" {
      assert (long + after)[1..] == long[1..] + after;
      LongLine(long[1..], after);
    }
  }

  lemma LongTurn(long: string, after: string, p: Parsed)
    requires '\n' !in long && |long| >= 1023
    ensures OneTurn(long + after, "", p).TooLong?
  {
    hide LineLength, CutSpace, ParseLine, Absorb;
    LongLine(long, after);
    var n := FGets(long + after, ASCIILINESZ);
    assert "" + (long + after)[..n] == long[..n];
  }

  /** So is one of 1023 characters or more. */
  lemma LongLineRefuses(lines: seq<string>, long: string, after: string)
    requires forall i :: 0 <= i < |lines| ==> Plain(lines[i])
    requires '\n' !in long && |long| >= 1023
    ensures Load(Joined(lines) + long + after).None?
  {
    hide Plain, AbsorbAll, Joined, OneTurn;
    var p := Parsed("", Empties(DICTMINSZ), 0);
    assert Joined(lines) + long + after == Joined(lines) + (long + after);
    ReadAll(lines, long + after, p);
    LongTurn(long, after, AbsorbAll(lines, p));
  }
}
