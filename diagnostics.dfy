/**
 * The diagnostic sink `ErrorHandler` (src/error/ErrorHandler.hpp and
 * src/error/ErrorHandler.cpp): a list of reported errors and the source
 * text they point into, rendered as a report with the offending line and a
 * caret underline. The report is returned as text instead of being written
 * to the error stream.
 */
module Diagnostics {
  import opened Values
  import opened Decimal

  datatype ErrorType = SYNTAX_ERROR | SEMANTIC_ERROR | RUNTIME_ERROR

  datatype Error = Error(kind: ErrorType, message: string, pos: int)

  /** `stringifyErrorType`. */
  function KindName(t: ErrorType): (s: string)
  {
    match t
    case SYNTAX_ERROR => "SYNTAX_ERROR"
    case SEMANTIC_ERROR => "SEMANTIC_ERROR"
    case RUNTIME_ERROR => "RUNTIME_ERROR"
  }

  /** The three kinds print differently, each as the enumerator's own name. */
  lemma KindNamesDistinct(a: ErrorType, b: ErrorType)
    ensures KindName(a) == KindName(b) <==> a == b
    ensures |KindName(a)| >= 12 && KindName(a)[|KindName(a)| - 6..] == "_ERROR"
  {
  }

  // ------------------------------------------------- std::string searches

  /** The last index at or before `k` holding `c`. */
  function RFindFrom(s: string, c: char, k: int): (r: Option<nat>)
    requires k < |s|
    decreases k + 1
    ensures r.Some? ==> r.value <= k && s[r.value] == c && forall j :: r.value < j <= k ==> s[j] != c
    ensures r.None? ==> forall j :: 0 <= j <= k ==> s[j] != c
  {
    if k < 0 then None else if s[k] == c then Some(k) else RFindFrom(s, c, k - 1)
  }

  /** The first index at or after `k` holding `c`. */
  function FindFrom(s: string, c: char, k: nat): (r: Option<nat>)
    decreases |s| - k
    ensures r.Some? ==> k <= r.value < |s| && s[r.value] == c && forall j :: k <= j < r.value ==> s[j] != c
    ensures r.None? ==> forall j :: k <= j < |s| ==> s[j] != c
  {
    if k >= |s| then None else if s[k] == c then Some(k) else FindFrom(s, c, k + 1)
  }

  /**
   * `rfind(c, pos)` with a `long long` position: a negative one converts to
   * a huge `size_t`, and a position past the end searches the whole text.
   */
  function RFind(s: string, c: char, pos: int): Option<nat>
  {
    RFindFrom(s, c, if 0 <= pos < |s| then pos else |s| - 1)
  }

  /** `find(c, pos)`: a negative position converts to a huge `size_t` and finds nothing. */
  function Find(s: string, c: char, pos: int): Option<nat>
  {
    if pos < 0 then None else FindFrom(s, c, pos)
  }

  // ------------------------------------------------------ the error's line

  /** The line `getCodeLineFromCode` returns and the column it leaves in `error_pos_`. */
  datatype CodeLine = CodeLine(text: string, column: int)

  /** The offset just after the last '\n' at or before `pos`, or 0. */
  function LineStart(code: string, pos: int): (start: nat)
    ensures start <= |code|
  {
    match RFind(code, '\n', pos)
    case None => 0
    case Some(k) => k + 1
  }

  /** The offset of the first '\n' at or after `pos`, or the end of the text. */
  function LineEnd(code: string, pos: int): (end: nat)
    ensures end <= |code|
  {
    match Find(code, '\n', pos)
    case None => |code|
    case Some(k) => k
  }

  /**
   * `getCodeLineFromCode`: `substr(start, end - start)`. When `pos` is a
   * '\n' the length is -1, which converts to a huge `size_t`, so the rest
   * of the text is returned.
   */
  function GetCodeLine(code: string, pos: int): (r: CodeLine)
  {
    var start := LineStart(code, pos);
    var end := LineEnd(code, pos);
    CodeLine(if start <= end then code[start..end] else code[start..], Column(code, pos))
  }

  /** The offset of `pos` from the start of its line; -1 on a '\n'. */
  function Column(code: string, pos: int): int
  {
    pos - LineStart(code, pos)
  }

  /**
   * For a position on a character of a line, the result is that whole line
   * without its '\n', and the column is the character's offset in it.
   */
  lemma CodeLineOfCharacter(code: string, pos: int)
    requires 0 <= pos < |code| && code[pos] != '\n'
    ensures var r := GetCodeLine(code, pos); var start := pos - r.column;
      0 <= r.column < |r.text| && r.text[r.column] == code[pos] && '\n' !in r.text
      && 0 <= start && start + |r.text| <= |code| && r.text == code[start..start + |r.text|]
      && (start == 0 || code[start - 1] == '\n')
      && (start + |r.text| == |code| || code[start + |r.text|] == '\n')
  {
    var start := LineStart(code, pos);
    var end := LineEnd(code, pos);
    assert start <= pos < end;
    var r := GetCodeLine(code, pos);
    assert r.text == code[start..end];
    forall i | 0 <= i < |r.text|
      ensures r.text[i] != '\n'
    {
      assert r.text[i] == code[start + i];
    }
  }

  /** On a '\n' itself the column is -1 and the "line" is all the text after it. */
  lemma CodeLineAtNewline(code: string, pos: int)
    requires 0 <= pos < |code| && code[pos] == '\n'
    ensures GetCodeLine(code, pos) == CodeLine(code[pos + 1..], -1)
  {
  }

  // ------------------------------------------------------ the line number

  /** The lines `std::getline` reads, each with a '\n' put back at its end. */
  function Lines(s: string): (ls: seq<string>)
    decreases |s|
  {
    if |s| == 0 then []
    else match FindFrom(s, '\n', 0)
      case None => [s + "\n"]
      case Some(k) => [s[..k] + "\n"] + Lines(s[k + 1..])
  }

  /** The 1-based number of the line holding offset `pos` (counting from `pos >= 0`), or one past the last. */
  function LineAt(lines: seq<string>, pos: int): (n: nat)
    ensures 1 <= n <= |lines| + 1
  {
    if |lines| == 0 then 1
    else if 0 <= pos < |lines[0]| then 1
    else 1 + LineAt(lines[1..], pos - |lines[0]|)
  }

  /** The number of times `c` occurs in `s`. */
  function Occurrences(s: string, c: char): nat
  {
    if |s| == 0 then 0 else (if s[0] == c then 1 else 0) + Occurrences(s[1..], c)
  }

  lemma {:induction false} OccurrencesAppend(a: string, b: string, c: char)
    ensures Occurrences(a + b, c) == Occurrences(a, c) + Occurrences(b, c)
  {
    if |a| > 0 {
      assert (a + b)[1..] == a[1..] + b;
      OccurrencesAppend(a[1..], b, c);
    } else {
      assert a + b == b;
    }
  }

  /** For an offset inside the text, the line number is one more than the number of '\n' before it. */
  lemma {:induction false} LineAtCountsNewlines(code: string, pos: int)
    requires 0 <= pos < |code|
    ensures LineAt(Lines(code), pos) == 1 + Occurrences(code[..pos], '\n')
    decreases |code|
  {
    var ls := Lines(code);
    match FindFrom(code, '\n', 0)
    case None =>
      assert ls == [code + "\n"];
      assert Occurrences(code[..pos], '\n') == 0 by { NoOccurrences(code[..pos], '\n'); }
    case Some(k) =>
      var rest := code[k + 1..];
      assert ls == [code[..k] + "\n"] + Lines(rest);
      if pos <= k {
        NoOccurrences(code[..pos], '\n');
      } else {
        assert ls[1..] == Lines(rest);
        LineAtCountsNewlines(rest, pos - (k + 1));
        assert code[..pos] == code[..k] + "\n" + rest[..pos - (k + 1)];
        OccurrencesAppend(code[..k] + "\n", rest[..pos - (k + 1)], '\n');
        OccurrencesAppend(code[..k], "\n", '\n');
        NoOccurrences(code[..k], '\n');
      }
  }

  lemma {:induction false} NoOccurrences(s: string, c: char)
    requires forall i :: 0 <= i < |s| ==> s[i] != c
    ensures Occurrences(s, c) == 0
  {
    if |s| > 0 {
      NoOccurrences(s[1..], c);
    }
  }

  // --------------------------------------------------------- the underline

  /** `n` tildes; none when `n` is not positive. */
  function Tildes(n: int): (t: string)
    ensures |t| == (if n > 0 then n else 0) && forall i :: 0 <= i < |t| ==> t[i] == '~'
  {
    seq(if n > 0 then n else 0, _ => '~')
  }

  /** The underline: `column - 1` tildes, the caret, then `| |line| - column |` tildes. */
  function Underline(line: string, column: int): string
  {
    Tildes(column - 1) + "^" + Tildes(Abs(|line| - column))
  }

  /**
   * The caret sits at offset `column - 1` (at 0 when the column is 0), and
   * for a column inside the line the underline is exactly as wide as it.
   */
  lemma UnderlineShape(line: string, column: int)
    ensures var u := Underline(line, column); var at := if column > 1 then column - 1 else 0;
      at < |u| && u[at] == '^' && (forall i :: 0 <= i < |u| && i != at ==> u[i] == '~')
      && (1 <= column <= |line| ==> |u| == |line|)
  {
  }

  /** The report block for one error. */
  function Diagnosis(code: string, e: Error): string
  {
    var line := GetCodeLine(code, e.pos);
    "\n[" + KindName(e.kind) + "][" + IntText(LineAt(Lines(code), e.pos)) + "] " + e.message + "\n"
      + line.text + "\n" + Underline(line.text, line.column) + "\n"
  }

  /** The report blocks of `errors`, in report order. */
  function Diagnoses(code: string, errors: seq<Error>): string
  {
    if |errors| == 0 then "" else Diagnoses(code, errors[..|errors| - 1]) + Diagnosis(code, errors[|errors| - 1])
  }

  lemma DiagnosesSnoc(code: string, errors: seq<Error>, i: nat)
    requires i < |errors|
    ensures Diagnoses(code, errors[..i + 1]) == Diagnoses(code, errors[..i]) + Diagnosis(code, errors[i])
  {
    assert errors[..i + 1][..i] == errors[..i];
  }

  /** How `showErrors` opens: the number of errors. */
  function Header(count: int): string
  {
    "\n" + IntText(count) + " error/-s was found...\n"
  }

  // ------------------------------------------------------------ the sink

  class ErrorHandler {
    var errors: seq<Error>
    var code: string
    /** Left by the last `getCodeLineFromCode`; uninitialised before one. */
    var errorPos: int

    constructor()
      ensures errors == [] && code == ""
    {
      errors := [];
      code := "";
    }

    /** `setCode` replaces the text the report points into and nothing else. */
    method SetCode(c: string)
      modifies this
      ensures code == c && errors == old(errors) && errorPos == old(errorPos)
    {
      code := c;
    }

    /** `report(error)`: one more error, at the end of the list. */
    method Report(e: Error)
      modifies this
      ensures errors == old(errors) + [e] && code == old(code) && errorPos == old(errorPos)
    {
      errors := errors + [e];
    }

    /** `report(type, message, pos)`, the same with the error built in place. */
    method ReportParts(t: ErrorType, message: string, pos: int)
      modifies this
      ensures errors == old(errors) + [Error(t, message, pos)] && code == old(code) && errorPos == old(errorPos)
    {
      errors := errors + [Error(t, message, pos)];
    }

    /** `clearErrors` empties the list and keeps the text. */
    method ClearErrors()
      modifies this
      ensures errors == [] && code == old(code) && errorPos == old(errorPos)
    {
      errors := [];
    }

    method GetErrorsCount() returns (n: int)
      ensures n == |errors|
    {
      n := |errors|;
    }

    /** `getCodeLineFromCode`: the line around `pos`, leaving the column in `error_pos_`. */
    method GetCodeLineFromCode(pos: int) returns (line: string)
      modifies this
      ensures GetCodeLine(code, pos) == CodeLine(line, errorPos)
      ensures errors == old(errors) && code == old(code)
    {
      var start: int := match RFind(code, '\n', pos) case None => 0 case Some(k) => k + 1;
      var end: int := match Find(code, '\n', pos) case None => |code| case Some(k) => k;
      errorPos := pos - start;
      line := if start <= end then code[start..end] else code[start..];
    }

    /** `getLineByPosition`: walk the lines, summing their lengths, until one holds `pos`. */
    method GetLineByPosition(pos: int) returns (n: int)
      ensures n == LineAt(Lines(code), pos)
    {
      var lines := Lines(code);
      var current := 0;
      var number := 0;
      while number < |lines|
        invariant 0 <= number <= |lines|
        invariant LineAt(lines, pos) == number + LineAt(lines[number..], pos - current)
        decreases |lines| - number
      {
        var l := lines[number];
        assert lines[number..][1..] == lines[number + 1..];
        if pos >= current && pos < current + |l| {
          break;
        }
        current := current + |l|;
        number := number + 1;
      }
      n := number + 1;
    }

    /** The `for` loops that print `~`s around the caret. */
    method WriteUnderline(line: string) returns (u: string)
      ensures u == Underline(line, errorPos)
    {
      u := "";
      var i := 1;
      while i < errorPos
        invariant 1 <= i && (i <= errorPos || i == 1) && u == Tildes(i - 1)
        decreases errorPos - i
      {
        assert Tildes(i - 1) + "~" == Tildes(i);
        u := u + "~";
        i := i + 1;
      }
      assert u == Tildes(errorPos - 1);
      u := u + "^";
      var count := Abs(|line| - errorPos);
      var j := 0;
      assert u + Tildes(0) == u;
      while j < count
        invariant 0 <= j <= count && u == Tildes(errorPos - 1) + "^" + Tildes(j)
        decreases count - j
      {
        assert Tildes(j) + "~" == Tildes(j + 1);
        u := u + "~";
        j := j + 1;
      }
    }

    /** One error's block: its kind, line number and message, the line, and the underline. */
    method WriteDiagnosis(e: Error) returns (block: string)
      modifies this
      ensures block == Diagnosis(code, e) && errorPos == Column(code, e.pos)
      ensures errors == old(errors) && code == old(code)
    {
      var line := GetCodeLineFromCode(e.pos);
      var number := GetLineByPosition(e.pos);
      var underline := WriteUnderline(line);
      block := "\n[" + KindName(e.kind) + "][" + IntText(number) + "] " + e.message + "\n"
        + line + "\n" + underline + "\n";
    }

    /** The loop of `showErrors`: each error's block in report order. */
    method WriteDiagnoses() returns (text: string)
      modifies this
      ensures text == Diagnoses(code, errors)
      ensures errors == old(errors) && code == old(code)
      ensures |errors| > 0 ==> errorPos == Column(code, errors[|errors| - 1].pos)
    {
      var es, c := errors, code;
      text := "";
      var i := 0;
      while i < |es|
        invariant 0 <= i <= |es| && errors == es && code == c
        invariant text == Diagnoses(c, es[..i])
        invariant i > 0 ==> errorPos == Column(c, es[i - 1].pos)
        decreases |es| - i
      {
        var block := WriteDiagnosis(es[i]);
        assert block == Diagnosis(c, es[i]);
        assert es[..i + 1][i] == es[i];
        DiagnosesSnoc(c, es, i);
        text := text + block;
        i := i + 1;
      }
      assert es[..i] == es;
    }

    /** `showErrors`: the header, then each error's block in report order. */
    method ShowErrors() returns (text: string)
      modifies this
      ensures text == Header(|errors|) + Diagnoses(code, errors)
      ensures errors == old(errors) && code == old(code)
      ensures |errors| > 0 ==> errorPos == Column(code, errors[|errors| - 1].pos)
    {
      var count := GetErrorsCount();
      var blocks := WriteDiagnoses();
      text := Header(count) + blocks;
    }
  }
}
