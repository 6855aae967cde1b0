/**
 * The lexer's ordered rule table `token_list` (src/token/TokenType.cpp):
 * (pattern, kind) pairs tried first to last, the first match winning.
 *
 * The operator, punctuation and keyword patterns are regexes that match
 * exactly one fixed text; they are kept here as that text, un-escaped.
 * The two alternations (`\n|\r`, `true|false`) are kept as their
 * alternatives, and the character-class patterns as their regex source.
 */
module TokenTable {
  import opened Tokens
  import opened Values

  datatype Pattern =
    | Literal(text: string)
    | Either(texts: seq<string>)
    | Regex(source: string)

  datatype Rule = Rule(pattern: Pattern, kind: TokenType)

  /** The fixed texts a pattern matches; a character-class regex has none. */
  function Texts(p: Pattern): seq<string>
  {
    match p
    case Literal(t) => [t]
    case Either(ts) => ts
    case Regex(_) => []
  }

  const LineEnd: Rule := Rule(Either(["\n", "\r"]), LINE_END)

  const ThreeCharOperators: seq<Rule> := [
    Rule(Literal("^^="), LOG_ASSIGN), Rule(Literal("**="), POWER_ASSIGN),
    Rule(Literal("++="), PLUS_ASSIGN), Rule(Literal("--="), MINUS_ASSIGN),
    Rule(Literal("%%="), ROOT_ASSIGN), Rule(Literal("//="), FLOOR_ASSIGN),
    Rule(Literal("<<="), BIT_LEFT_SHIFT_ASSIGN), Rule(Literal(">>="), BIT_RIGHT_SHIFT_ASSIGN)]

  const TwoCharOperators: seq<Rule> := [
    Rule(Literal("+="), PLUS_ASSIGN), Rule(Literal("-="), MINUS_ASSIGN),
    Rule(Literal("*="), MULTIPLY_ASSIGN), Rule(Literal("/="), DIVIDE_ASSIGN),
    Rule(Literal("%="), MODULO_ASSIGN), Rule(Literal("&="), BIT_AND_ASSIGN),
    Rule(Literal("|="), BIT_OR_ASSIGN), Rule(Literal("^="), BIT_XOR_ASSIGN),
    Rule(Literal("^^"), LOG), Rule(Literal("**"), POWER),
    Rule(Literal("++"), PLUS_ONE), Rule(Literal("--"), MINUS_ONE),
    Rule(Literal("%%"), ROOT), Rule(Literal("//"), FLOOR),
    Rule(Literal("<<"), BIT_LEFT_SHIFT), Rule(Literal(">>"), BIT_RIGHT_SHIFT),
    Rule(Literal("&&"), LOGICAL_AND), Rule(Literal("||"), LOGICAL_OR),
    Rule(Literal("=="), EQUALS), Rule(Literal("!="), NOT_EQUALS),
    Rule(Literal("<="), LESS_THAN_OR_EQUAL), Rule(Literal(">="), GREATER_THAN_OR_EQUAL)]

  const OneCharOperators: seq<Rule> := [
    Rule(Literal(","), COMMA), Rule(Literal("+"), PLUS), Rule(Literal("-"), MINUS),
    Rule(Literal("*"), MULTIPLY), Rule(Literal("/"), DIVIDE), Rule(Literal("%"), MODULO),
    Rule(Literal("&"), BIT_AND), Rule(Literal("|"), BIT_OR), Rule(Literal("^"), BIT_XOR),
    Rule(Literal("~"), BIT_NOT), Rule(Literal("!"), LOGICAL_NOT),
    Rule(Literal("<"), LESS_THAN), Rule(Literal(">"), GREATER_THAN), Rule(Literal("="), ASSIGN)]

  const Keywords: seq<Rule> := [
    Rule(Literal("if"), IF), Rule(Literal("else"), ELSE), Rule(Literal("while"), WHILE),
    Rule(Literal("for"), FOR), Rule(Literal("break"), BREAK), Rule(Literal("continue"), CONTINUE),
    Rule(Literal("print"), PRINT), Rule(Literal("input"), INPUT)]

  const Lexemes: seq<Rule> := [
    Rule(Regex("[a-zA-Z][a-zA-Z0-9]*"), VARIABLE), Rule(Either(["true", "false"]), BOOL),
    Rule(Regex("[0-9]+\\.[0-9]+"), FLOAT), Rule(Regex("[0-9]+"), INT),
    Rule(Regex("\"[^\"]*\""), STRING),
    Rule(Literal("("), LPAR), Rule(Literal(")"), RPAR),
    Rule(Literal("{"), LBRACE), Rule(Literal("}"), RBRACE),
    Rule(Regex("\\s+"), SPACE)]

  /** The operator rules, in table order. */
  const Operators: seq<Rule> := ThreeCharOperators + TwoCharOperators + OneCharOperators

  /** `token_list`, first to last. */
  const Rules: seq<Rule> := [LineEnd] + Operators + Keywords + Lexemes

  // ---------------------------------------------------------- first match

  /** A rule matches at the start of `s` when one of its fixed texts begins `s`. */
  predicate Matches(r: Rule, s: string)
  {
    exists a <- Texts(r.pattern) :: a <= s
  }

  /** The index of the first rule whose fixed text begins `s`. */
  function FirstMatch(rules: seq<Rule>, s: string): (r: Option<nat>)
    ensures r.Some? ==> r.value < |rules| && Matches(rules[r.value], s)
    ensures r.Some? ==> forall k :: 0 <= k < r.value ==> !Matches(rules[k], s)
    ensures r.None? ==> forall k :: 0 <= k < |rules| ==> !Matches(rules[k], s)
  {
    if |rules| == 0 then None
    else if Matches(rules[0], s) then Some(0)
    else match FirstMatch(rules[1..], s)
      case None => None
      case Some(k) => Some(k + 1)
  }

  /** No fixed text of a rule is a proper prefix of a fixed text of the same or a later rule. */
  predicate LongestFirst(rules: seq<Rule>)
  {
    forall i, j :: 0 <= i <= j < |rules| ==>
      forall a <- Texts(rules[i].pattern), b <- Texts(rules[j].pattern) :: !(a < b)
  }

  /** Every fixed text of the rules has `n` characters. */
  predicate AllOfLength(rules: seq<Rule>, n: nat)
  {
    forall i :: 0 <= i < |rules| ==> forall t <- Texts(rules[i].pattern) :: |t| == n
  }

  /** Two prefixes of one text: the shorter is a prefix of the longer. */
  lemma PrefixesNest(a: string, b: string, s: string)
    requires a <= s && b <= s && |a| < |b|
    ensures a < b
  {
    assert a == s[..|a|] && b == s[..|b|];
    assert b[..|a|] == s[..|a|];
  }

  /**
   * First match is longest match: when no earlier text is a proper prefix
   * of a later one, no later rule matches a longer text than the rule that
   * first matches.
   */
  lemma {:induction false} FirstMatchIsLongest(rules: seq<Rule>, s: string, a: string)
    requires LongestFirst(rules)
    requires FirstMatch(rules, s).Some?
    requires a in Texts(rules[FirstMatch(rules, s).value].pattern) && a <= s
    ensures forall j, b :: 0 <= j < |rules| && b in Texts(rules[j].pattern) && b <= s ==> |b| <= |a|
  {
    var i := FirstMatch(rules, s).value;
    forall j, b | 0 <= j < |rules| && b in Texts(rules[j].pattern) && b <= s
      ensures |b| <= |a|
    {
      if j < i {
        assert Matches(rules[j], s);
      } else if |b| > |a| {
        PrefixesNest(a, b, s);
      }
    }
  }

  /** Rules whose texts do not get longer from one group to the next: sorted by length, longest first. */
  lemma {:induction false} GroupsLongestFirst(g3: seq<Rule>, g2: seq<Rule>, g1: seq<Rule>)
    requires AllOfLength(g3, 3) && AllOfLength(g2, 2) && AllOfLength(g1, 1)
    ensures LongestFirst(g3 + g2 + g1)
  {
    var all := g3 + g2 + g1;
    forall i, j | 0 <= i <= j < |all|
      ensures forall a <- Texts(all[i].pattern), b <- Texts(all[j].pattern) :: !(a < b)
    {
      var li := if i < |g3| then 3 else if i < |g3| + |g2| then 2 else 1;
      var lj := if j < |g3| then 3 else if j < |g3| + |g2| then 2 else 1;
      assert forall a <- Texts(all[i].pattern) :: |a| == li by {
        if i < |g3| { assert all[i] == g3[i]; }
        else if i < |g3| + |g2| { assert all[i] == g2[i - |g3|]; }
        else { assert all[i] == g1[i - |g3| - |g2|]; }
      }
      assert forall b <- Texts(all[j].pattern) :: |b| == lj by {
        if j < |g3| { assert all[j] == g3[j]; }
        else if j < |g3| + |g2| { assert all[j] == g2[j - |g3|]; }
        else { assert all[j] == g1[j - |g3| - |g2|]; }
      }
    }
  }

  lemma ThreeCharWidth()
    ensures AllOfLength(ThreeCharOperators, 3)
  {
  }

  lemma TwoCharWidth()
    ensures AllOfLength(TwoCharOperators, 2)
  {
  }

  lemma OneCharWidth()
    ensures AllOfLength(OneCharOperators, 1)
  {
  }

  /** Every operator is listed before each shorter operator that is a proper prefix of it (`**=`, `**`, `*`). */
  lemma OperatorsLongestFirst()
    ensures LongestFirst(Operators)
  {
    ThreeCharWidth();
    TwoCharWidth();
    OneCharWidth();
    GroupsLongestFirst(ThreeCharOperators, TwoCharOperators, OneCharOperators);
  }

  /** So the operator a text starts with is read by maximal munch. */
  lemma OperatorMaximalMunch(s: string, a: string)
    requires FirstMatch(Operators, s).Some?
    requires a in Texts(Operators[FirstMatch(Operators, s).value].pattern) && a <= s
    ensures forall j, b :: 0 <= j < |Operators| && b in Texts(Operators[j].pattern) && b <= s ==> |b| <= |a|
  {
    OperatorsLongestFirst();
    FirstMatchIsLongest(Operators, s, a);
  }

  // ------------------------------------------------------------ the order

  /** Where the groups sit: the line-end rule first, the operators, the keywords, the rest; white space last. */
  lemma RuleLayout()
    ensures |Rules| == 63 && Rules[0] == LineEnd && Rules[0].kind == LINE_END
    ensures Rules[1..45] == Operators && Rules[45..53] == Keywords && Rules[53..] == Lexemes
    ensures Rules[62] == Rule(Regex("\\s+"), SPACE)
  {
    assert Rules == [LineEnd] + Operators + Keywords + Lexemes;
  }

  /** `++=` and `--=` read as PLUS_ASSIGN and MINUS_ASSIGN and come before `+=`, `-=`, `++` and `--`. */
  lemma IncrementAssignOrder()
    ensures Operators[2] == Rule(Literal("++="), PLUS_ASSIGN) && Operators[3] == Rule(Literal("--="), MINUS_ASSIGN)
    ensures Operators[8] == Rule(Literal("+="), PLUS_ASSIGN) && Operators[9] == Rule(Literal("-="), MINUS_ASSIGN)
    ensures Operators[18] == Rule(Literal("++"), PLUS_ONE) && Operators[19] == Rule(Literal("--"), MINUS_ONE)
  {
  }

  /** VARIABLE is tried before BOOL, and FLOAT before INT. */
  lemma LexemeOrder()
    ensures Lexemes[0].kind == VARIABLE && Lexemes[1].kind == BOOL
    ensures Lexemes[2].kind == FLOAT && Lexemes[3].kind == INT
  {
  }
}
