/**
 * `FileReader::replaceEscapedNewlines` (src/utils/FileReader.cpp): the two
 * characters '\' 'n' written in a script file become one newline.
 */
module FileReading {

  /** The rewrite as a left-to-right scan: a '\' followed by 'n' becomes a newline, anything else is copied. */
  function Unescape(s: string): string
  {
    if |s| == 0 then ""
    else if s[0] == '\\' && |s| > 1 && s[1] == 'n' then "\n" + Unescape(s[2..])
    else [s[0]] + Unescape(s[1..])
  }

  /** `s` holds a '\' immediately followed by 'n'. */
  predicate HasEscape(s: string)
  {
    exists i :: 0 <= i < |s| - 1 && s[i] == '\\' && s[i + 1] == 'n'
  }

  /** The number of positions at which a '\' 'n' pair starts. */
  function Escapes(s: string): nat
  {
    if |s| < 2 then 0
    else (if s[0] == '\\' && s[1] == 'n' then 1 else 0) + Escapes(s[1..])
  }

  /** `replaceEscapedNewlines`: the index loop that skips the 'n' of each pair it rewrites. */
  method ReplaceEscapedNewlines(input: string) returns (result: string)
    ensures result == Unescape(input)
  {
    result := "";
    var i := 0;
    while i < |input|
      invariant 0 <= i <= |input|
      invariant Unescape(input) == result + Unescape(input[i..])
      decreases |input| - i
    {
      var rest := input[i..];
      if input[i] == '\\' && i + 1 < |input| && input[i + 1] == 'n' {
        assert rest[2..] == input[i + 2..];
        result := result + "\n";
        i := i + 1;
      } else {
        assert rest[1..] == input[i + 1..];
        result := result + [input[i]];
      }
      i := i + 1;
    }
  }

  // ------------------------------------------------------------------ laws

  /** Each pair shortens the text by one character, so the output is never longer. */
  lemma {:induction false} UnescapeLength(s: string)
    ensures |Unescape(s)| == |s| - Escapes(s)
    ensures |Unescape(s)| <= |s|
  {
    if |s| >= 2 && s[0] == '\\' && s[1] == 'n' {
      UnescapeLength(s[2..]);
      assert Escapes(s[1..]) == Escapes(s[2..]) by {
        assert s[1..][1..] == s[2..];
      }
    } else if |s| > 0 {
      UnescapeLength(s[1..]);
    }
  }

  /** Every character other than a '\' 'n' pair is copied unchanged and in order. */
  lemma {:induction false} UnescapeKeepsPlainText(s: string)
    requires !HasEscape(s)
    ensures Unescape(s) == s
  {
    if |s| > 0 {
      assert !HasEscape(s[1..]);
      UnescapeKeepsPlainText(s[1..]);
      assert !(s[0] == '\\' && |s| > 1 && s[1] == 'n');
    }
  }

  /** Text without a backslash comes back unchanged. */
  lemma NoBackslashUnchanged(s: string)
    requires '\\' !in s
    ensures Unescape(s) == s
  {
    UnescapeKeepsPlainText(s);
  }

  /** The first character of the rewrite of a text that does not start with 'n' is not 'n'. */
  lemma {:induction false} UnescapeHead(s: string)
    requires |s| > 0 && s[0] != 'n'
    ensures |Unescape(s)| > 0 && Unescape(s)[0] != 'n'
  {
  }

  /** The rewrite holds no '\' 'n' pair: a copied '\' is never followed by a copied 'n'. */
  lemma {:induction false} UnescapeLeavesNoEscape(s: string)
    ensures !HasEscape(Unescape(s))
  {
    if |s| == 0 {
    } else if s[0] == '\\' && |s| > 1 && s[1] == 'n' {
      UnescapeLeavesNoEscape(s[2..]);
      NoEscapeAfterNewline(Unescape(s[2..]));
    } else {
      var t := Unescape(s[1..]);
      UnescapeLeavesNoEscape(s[1..]);
      if s[0] == '\\' && |s| > 1 {
        UnescapeHead(s[1..]);
      }
      NoEscapeAfterHead(s[0], t);
    }
  }

  lemma NoEscapeAfterNewline(t: string)
    requires !HasEscape(t)
    ensures !HasEscape("\n" + t)
  {
  }

  lemma NoEscapeAfterHead(c: char, t: string)
    requires !HasEscape(t)
    requires c == '\\' ==> t == "" || t[0] != 'n'
    ensures !HasEscape([c] + t)
  {
  }

  /** Applying the rewrite twice is the same as applying it once. */
  lemma UnescapeIdempotent(s: string)
    ensures Unescape(Unescape(s)) == Unescape(s)
  {
    UnescapeLeavesNoEscape(s);
    UnescapeKeepsPlainText(Unescape(s));
  }
}
