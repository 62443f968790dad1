/**
 * The client-side input schemas: `regNrSchema`, the plate pattern
 * ^[A-Za-z]{2}[0-9]{5}$, and `taskFormSchema`, the bounds on the task form.
 */
module Validators {
  import opened JsText

  // ---------------------------------------------------------------- regNrSchema

  /** The two character classes of the plate pattern: [A-Za-z] and [0-9]. */
  datatype CharClass = AsciiLetters | AsciiDigits

  /** One term `class{count}` of an anchored pattern. */
  datatype Term = Repeat(cls: CharClass, count: nat)

  /** The pattern of `regNrSchema`: ^[A-Za-z]{2}[0-9]{5}$ */
  const RegNrPattern: seq<Term> := [Repeat(AsciiLetters, 2), Repeat(AsciiDigits, 5)]

  predicate InClass(cls: CharClass, c: char) {
    match cls
    case AsciiLetters => IsAsciiLetter(c)
    case AsciiDigits => IsAsciiDigit(c)
  }

  /** The number of characters a string matched by the terms has. */
  function PatternLength(p: seq<Term>): nat {
    if p == [] then 0 else p[0].count + PatternLength(p[1..])
  }

  /** `s` is matched by the terms from its first to its last character (the pattern is anchored by ^ and $). */
  predicate MatchesWhole(p: seq<Term>, s: string)
    ensures MatchesWhole(p, s) ==> |s| == PatternLength(p)
    decreases |p|
  {
    if p == [] then s == []
    else
      && |s| >= p[0].count
      && (forall i :: 0 <= i < p[0].count ==> InClass(p[0].cls, s[i]))
      && MatchesWhole(p[1..], s[p[0].count..])
  }

  /** `regNrSchema.safeParse(s).success` */
  predicate RegNrSchema(s: string)
    ensures RegNrSchema(s) ==> |s| == 7
  {
    assert PatternLength(RegNrPattern) == 7 by {
      assert RegNrPattern[1..][1..] == [];
    }
    MatchesWhole(RegNrPattern, s)
  }

  /** Seven characters: two ASCII letters of either case, then five ASCII digits. */
  predicate IsPlate(s: string) {
    && |s| == 7
    && (forall i :: 0 <= i < 2 ==> IsAsciiLetter(s[i]))
    && (forall i :: 2 <= i < 7 ==> IsAsciiDigit(s[i]))
  }

  /** The pattern accepts exactly the strings of plate shape. */
  lemma RegNrSchemaIsPlate(s: string)
    ensures RegNrSchema(s) <==> IsPlate(s)
  {
    var p := RegNrPattern;
    assert p[1..] == [Repeat(AsciiDigits, 5)] && p[1..][1..] == [];
    if |s| >= 2 {
      var rest := s[2..];
      if |rest| >= 5 {
        assert rest[5..] == [] <==> |s| == 7;
        assert (forall i :: 0 <= i < 5 ==> IsAsciiDigit(rest[i])) <==> (forall i :: 2 <= i < 7 && i < |s| ==> IsAsciiDigit(s[i]));
      }
    }
  }

  /** A string with white space at either end is never a plate, so trimming an accepted plate changes nothing. */
  lemma PlateHasNoSurroundingWhiteSpace(s: string)
    requires RegNrSchema(s)
    ensures !IsWhiteSpace(s[0]) && !IsWhiteSpace(s[|s| - 1])
    ensures Trim(s) == s
  {
    RegNrSchemaIsPlate(s);
    TrimKeepsTrimmed(s);
  }

  /** An accepted plate, upper-cased, is two upper-case letters and five digits, and is still accepted. */
  lemma UpperCasedPlate(s: string)
    requires RegNrSchema(s)
    ensures var u := ToUpperCase(s);
      && |u| == 7
      && (forall i :: 0 <= i < 2 ==> IsAsciiUpper(u[i]))
      && (forall i :: 2 <= i < 7 ==> IsAsciiDigit(u[i]))
      && RegNrSchema(u)
  {
    RegNrSchemaIsPlate(s);
    RegNrSchemaIsPlate(ToUpperCase(s));
  }

  /** Upper-casing neither makes nor breaks a plate: the pattern is case-insensitive. */
  lemma RegNrSchemaIgnoresCase(s: string)
    ensures RegNrSchema(ToUpperCase(s)) <==> RegNrSchema(s)
  {
    var u := ToUpperCase(s);
    RegNrSchemaIsPlate(s);
    RegNrSchemaIsPlate(u);
    assert forall i :: 0 <= i < |s| ==> (IsAsciiLetter(u[i]) <==> IsAsciiLetter(s[i]));
    assert forall i :: 0 <= i < |s| ==> (IsAsciiDigit(u[i]) <==> IsAsciiDigit(s[i]));
  }

  // ---------------------------------------------------------------- taskFormSchema

  /** The task form as the page hands it to the schema. */
  datatype TaskForm = TaskForm(title: string, time: real, description: string)

  datatype Field = Title | Time | Description

  /** The check of a field that failed. */
  datatype Check = MinLength | MaxLength | Integer | Positive

  datatype Issue = Issue(field: Field, check: Check)

  /** Some issue in `r` is about `field`. */
  predicate Reports(r: seq<Issue>, field: Field) {
    exists k :: 0 <= k < |r| && r[k].field == field
  }

  lemma ReportsConcat(a: seq<Issue>, b: seq<Issue>, field: Field)
    ensures Reports(a + b, field) <==> Reports(a, field) || Reports(b, field)
  {
    if Reports(a + b, field) {
      var k :| 0 <= k < |a + b| && (a + b)[k].field == field;
      if k >= |a| {
        assert b[k - |a|].field == field;
      }
    }
    if Reports(a, field) {
      var k :| 0 <= k < |a| && a[k].field == field;
      assert (a + b)[k].field == field;
    }
    if Reports(b, field) {
      var k :| 0 <= k < |b| && b[k].field == field;
      assert (a + b)[|a| + k].field == field;
    }
  }

  /** The issues of a string field with `.min(min).max(max)`. */
  function LengthIssues(field: Field, s: string, min: nat, max: nat): (r: seq<Issue>)
    requires min <= max
    ensures forall k :: 0 <= k < |r| ==> r[k].field == field
    ensures r == [] <==> min <= |s| <= max
  {
    if |s| < min then [Issue(field, MinLength)]
    else if |s| > max then [Issue(field, MaxLength)]
    else []
  }

  /** The issues of the `time` field with `.int().positive()`; both checks run. */
  function TimeIssues(x: real): (r: seq<Issue>)
    ensures forall k :: 0 <= k < |r| ==> r[k].field == Time
    ensures r == [] <==> IsInteger(x) && x > 0.0
  {
    (if !IsInteger(x) then [Issue(Time, Integer)] else [])
    + (if x <= 0.0 then [Issue(Time, Positive)] else [])
  }

  /** The issues `taskFormSchema.safeParse` reports, field by field in declaration order. */
  function TaskFormIssues(f: TaskForm): (r: seq<Issue>)
    ensures Reports(r, Title) <==> !(1 <= |f.title| <= 100)
    ensures Reports(r, Time) <==> !(IsInteger(f.time) && f.time > 0.0)
    ensures Reports(r, Description) <==> !(1 <= |f.description| <= 400)
    ensures r == [] <==> 1 <= |f.title| <= 100 && IsInteger(f.time) && f.time > 0.0 && 1 <= |f.description| <= 400
  {
    var title := LengthIssues(Title, f.title, 1, 100);
    var time := TimeIssues(f.time);
    var description := LengthIssues(Description, f.description, 1, 400);
    ReportsConcat(title, time, Title);
    ReportsConcat(title, time, Time);
    ReportsConcat(title, time, Description);
    ReportsConcat(title + time, description, Title);
    ReportsConcat(title + time, description, Time);
    ReportsConcat(title + time, description, Description);
    assert title != [] ==> title[0].field == Title;
    assert time != [] ==> time[0].field == Time;
    assert description != [] ==> description[0].field == Description;
    title + time + description
  }

  /** The message the form shows for an issue; the integer and positivity checks of `time` use the library's own. */
  function CustomMessage(i: Issue): (m: string)
    ensures i.field == Time <==> m == ""
  {
    match i
    case Issue(Title, MinLength) => "Oppgave på ha en tittel"
    case Issue(Title, _) => "Tittelen kan ikke være lenger enn 100 bokstaver"
    case Issue(Description, MinLength) => "Oppgave må ha en beskrivelse"
    case Issue(Description, _) => "Beskrivelsen kan ikke være over 400 bokstaver"
    case Issue(Time, _) => ""
  }
}
