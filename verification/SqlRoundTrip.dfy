/** Rendered SELECT, UPDATE and DELETE statements and what they parse back to. */
module SqlRoundTrip {
  import opened Options
  import opened SqlGrammar

  // ---------- Statements ----------

  datatype Field = Field(name: string, alias: Option<string>)

  datatype Assignment = Assignment(field: string, value: string)

  /** The right side of a test is a column or a literal value. */
  datatype Operand = Column(name: string) | Literal(value: string)

  datatype Test = Test(field: string, operator: Operator, right: Operand)

  /** Characters of an identifier, no reserved word at the front, and not the first half
      of INSERT INTO or DELETE FROM. */
  ghost predicate IsWord(s: string) {
    && s != ""
    && (forall i | 0 <= i < |s| :: 'a' <= s[i] <= 'z' || 'A' <= s[i] <= 'Z' || '0' <= s[i] <= '9' || s[i] in "_*.")
    && (forall w | w in Reserved() :: !StartsWith(s, w))
    && Upper(s) != "INSERT" && Upper(s) != "DELETE"
  }

  ghost predicate IsColumn(s: string) {
    IsWord(s) && exists i :: 0 <= i < |s| && ('a' <= s[i] <= 'z' || 'A' <= s[i] <= 'Z' || s[i] == '_')
  }

  ghost predicate IsField(f: Field) {
    && (IsColumn(f.name) || f.name == "*")
    && (f.alias.Some? ==> IsColumn(f.alias.value))
  }

  ghost predicate IsTest(t: Test) {
    && IsColumn(t.field) && t.operator != UnknownOperator
    && match t.right
       case Column(name) => IsColumn(name)
       case Literal(value) => IsValue(value)
  }

  ghost predicate AreFields(l: seq<Field>) {
    l != [] && forall i | 0 <= i < |l| :: IsField(l[i])
  }

  ghost predicate AreTests(l: seq<Test>) {
    l != [] && forall i | 0 <= i < |l| :: IsTest(l[i])
  }

  ghost predicate AreAssignments(l: seq<Assignment>) {
    l != [] && forall i | 0 <= i < |l| :: IsColumn(l[i].field) && IsValue(l[i].value)
  }

  // ---------- Rendering ----------

  function Sign(op: Operator): string {
    match op
    case Eq => "="
    case Ne => "!="
    case Gt => ">"
    case Lt => "<"
    case Gte => ">="
    case Lte => "<="
    case UnknownOperator => ""
  }

  function RenderField(f: Field): string {
    f.name + if f.alias.Some? then " AS " + f.alias.value else ""
  }

  function RenderFields(l: seq<Field>): string
    requires l != []
  {
    RenderField(l[0]) + if |l| == 1 then "" else ", " + RenderFields(l[1..])
  }

  function RenderOperand(r: Operand): string {
    match r
    case Column(name) => name
    case Literal(value) => "'" + value + "'"
  }

  function RenderTest(t: Test): string {
    t.field + " " + Sign(t.operator) + " " + RenderOperand(t.right)
  }

  function RenderTests(l: seq<Test>): string
    requires l != []
  {
    RenderTest(l[0]) + if |l| == 1 then "" else " AND " + RenderTests(l[1..])
  }

  function RenderAssignments(l: seq<Assignment>): string
    requires l != []
  {
    l[0].field + " = '" + l[0].value + "'" + if |l| == 1 then "" else ", " + RenderAssignments(l[1..])
  }

  function RenderSelect(fields: seq<Field>, table: string, tests: seq<Test>): string
    requires fields != []
  {
    "SELECT " + RenderFields(fields) + " FROM " + table + if tests == [] then "" else " WHERE " + RenderTests(tests)
  }

  function RenderUpdate(table: string, l: seq<Assignment>, tests: seq<Test>): string
    requires l != [] && tests != []
  {
    "UPDATE " + table + " SET " + RenderAssignments(l) + " WHERE " + RenderTests(tests)
  }

  function RenderDelete(table: string, tests: seq<Test>): string
    requires tests != []
  {
    "DELETE FROM " + table + " WHERE " + RenderTests(tests)
  }

  // ---------- The queries they stand for ----------

  function Names(l: seq<Field>): seq<string> {
    seq(|l|, i requires 0 <= i < |l| => l[i].name)
  }

  /** Later aliases of a field replace earlier ones. */
  function Aliases(l: seq<Field>): map<string, string> {
    if l == [] then map[]
    else
      var f := l[|l|-1];
      if f.alias.Some? then Aliases(l[..|l|-1])[f.name := f.alias.value] else Aliases(l[..|l|-1])
  }

  /** Later assignments to a field replace earlier ones. */
  function Updates(l: seq<Assignment>): map<string, string> {
    if l == [] then map[] else Updates(l[..|l|-1])[l[|l|-1].field := l[|l|-1].value]
  }

  /** What the parser makes of a test: a literal that looks like an identifier, with a
      letter in it and no reserved word, is taken for a column. */
  function Read(t: Test): Condition {
    match t.right
    case Column(name) => Condition(t.field, true, t.operator, name, true)
    case Literal(value) => Condition(t.field, true, t.operator, value, IsIdentifier(value))
  }

  /** What a test means. */
  function Meant(t: Test): Condition {
    match t.right
    case Column(name) => Condition(t.field, true, t.operator, name, true)
    case Literal(value) => Condition(t.field, true, t.operator, value, false)
  }

  function AllRead(l: seq<Test>): seq<Condition> {
    seq(|l|, i requires 0 <= i < |l| => Read(l[i]))
  }

  function AllMeant(l: seq<Test>): seq<Condition> {
    seq(|l|, i requires 0 <= i < |l| => Meant(l[i]))
  }

  /** Every condition in terms of its test. */
  lemma ReadSpelled(l: seq<Test>)
    ensures |AllRead(l)| == |l|
    ensures forall i | 0 <= i < |l| ::
              var c := AllRead(l)[i];
              && c.operand1 == l[i].field && c.operand1IsField && c.operator == l[i].operator
              && (l[i].right.Column? ==> c.operand2 == l[i].right.name && c.operand2IsField)
              && (l[i].right.Literal? ==>
                    && c.operand2 == l[i].right.value
                    && (c.operand2IsField <==> IsIdentifier(l[i].right.value)))
  {
    hide IsIdentifier;
  }

  /** The last alias that a list gives a field is the one that counts. */
  lemma {:induction false} LastAliasWins(l: seq<Field>, i: nat)
    requires i < |l| && l[i].alias.Some? && forall j | i < j < |l| :: l[j].name != l[i].name || l[j].alias.None?
    ensures l[i].name in Aliases(l) && Aliases(l)[l[i].name] == l[i].alias.value
    ensures forall name | name in Aliases(l) :: exists j | 0 <= j < |l| :: l[j].name == name && l[j].alias.Some?
  {
    AliasesAreGiven(l);
    if i < |l| - 1 { LastAliasWins(l[..|l|-1], i); }
  }

  lemma {:induction false} AliasesAreGiven(l: seq<Field>)
    ensures forall name | name in Aliases(l) :: exists j | 0 <= j < |l| :: l[j].name == name && l[j].alias.Some?
  {
    if l != [] {
      var m := l[..|l|-1];
      AliasesAreGiven(m);
      forall name | name in Aliases(l) ensures exists j | 0 <= j < |l| :: l[j].name == name && l[j].alias.Some? {
        if name in Aliases(m) {
          var j :| 0 <= j < |m| && m[j].name == name && m[j].alias.Some?;
          assert l[j].name == name && l[j].alias.Some?;
        } else {
          assert l[|l|-1].name == name && l[|l|-1].alias.Some?;
        }
      }
    }
  }

  /** The last value that a list assigns to a field is the one that counts. */
  lemma {:induction false} LastAssignmentWins(l: seq<Assignment>, i: nat)
    requires i < |l| && forall j | i < j < |l| :: l[j].field != l[i].field
    ensures l[i].field in Updates(l) && Updates(l)[l[i].field] == l[i].value
    ensures forall field | field in Updates(l) :: exists j | 0 <= j < |l| :: l[j].field == field
  {
    UpdatesAreAssigned(l);
    if i < |l| - 1 { LastAssignmentWins(l[..|l|-1], i); }
  }

  lemma {:induction false} UpdatesAreAssigned(l: seq<Assignment>)
    ensures forall field | field in Updates(l) :: exists j | 0 <= j < |l| :: l[j].field == field
  {
    if l != [] {
      var m := l[..|l|-1];
      UpdatesAreAssigned(m);
      forall field | field in Updates(l) ensures exists j | 0 <= j < |l| :: l[j].field == field {
        if field in Updates(m) {
          var j :| 0 <= j < |m| && m[j].field == field;
          assert l[j].field == field;
        } else {
          assert l[|l|-1].field == field;
        }
      }
    }
  }

  /** No literal looks like an identifier: it has no letter, or it is a reserved word. */
  predicate Unambiguous(l: seq<Test>) {
    forall i | 0 <= i < |l| && l[i].right.Literal? ::
      var v := l[i].right.value;
      || Upper(v) in Reserved()
      || forall j | 0 <= j < |v| :: !('a' <= v[j] <= 'z' || 'A' <= v[j] <= 'Z' || v[j] == '_')
  }

  /** Reading and meaning agree exactly when no literal looks like an identifier. */
  lemma ReadAsMeant(l: seq<Test>)
    ensures AllRead(l) == AllMeant(l) <==> Unambiguous(l)
  {
    hide Reserved, Upper;
    if AllRead(l) == AllMeant(l) {
      forall i | 0 <= i < |l| && l[i].right.Literal? ensures !IsIdentifier(l[i].right.value) {
        assert AllRead(l)[i] == AllMeant(l)[i];
      }
      forall i, j | 0 <= i < |l| && l[i].right.Literal? && Upper(l[i].right.value) !in Reserved() && 0 <= j < |l[i].right.value|
        ensures !IsLetter(l[i].right.value[j])
      {}
    }
  }

  // ---------- Tokens ----------

  predicate EndsWord(rest: string) {
    rest == "" || rest[0] == ' ' || rest[0] == ','
  }

  /** Where a reserved word has a space, and what comes before it. */
  lemma SpaceInReserved(w: string)
    requires w in Reserved()
    ensures forall i | 1 <= i < |w| :: w[i] != ','
    ensures forall i | 0 <= i < |w| && w[i] == ' ' :: i == 6 && (w[..6] == "INSERT" || w[..6] == "DELETE")
  {}

  lemma WordIsNotReserved(word: string, rest: string, w: string)
    requires IsWord(word) && EndsWord(rest) && w in Reserved()
    ensures !StartsWith(word + rest, w)
  {
    hide Reserved, Upper;
    var s, n := word + rest, |word|;
    SpaceInReserved(w);
    assert !StartsWith(word, w);
    if |w| <= n {
      assert s[..|w|] == word[..|w|];
    } else if |w| <= |s| {
      UpperAt(s[..|w|], n);
      UpperOfPrefix(s[..|w|], n);
      assert s[..|w|][..n] == word && s[..|w|][n] == rest[0];
    }
  }

  lemma UpperOfPrefix(s: string, n: nat)
    requires n <= |s|
    ensures Upper(s)[..n] == Upper(s[..n])
  {}

  lemma WordToken(word: string, rest: string)
    requires IsWord(word) && EndsWord(rest)
    ensures First(word + rest) == Named(word) && (word + rest)[|word|..] == rest
  {
    hide Reserved, FirstWord, Upper, IdentLength, StartsWith;
    var s := word + rest;
    forall w | w in Reserved() ensures !StartsWith(s, w) { WordIsNotReserved(word, rest, w); }
    FirstWordIsReserved(s, Reserved());
    IdentLengthOf(word, rest);
    assert s[..|word|] == word;
    assert IsIdentChar(word[0]);
  }

  lemma ColumnIsIdentifier(word: string)
    requires IsColumn(word)
    ensures IsIdentifier(word)
  {
    hide Reserved;
    forall w | w in Reserved() ensures Upper(word) != w {
      assert !StartsWith(word, w);
      assert word[..|word|] == word;
    }
  }

  /** A word that is read as it stands. */
  function Named(word: string): Token {
    Token(word, word, false)
  }

  /** The reserved words of the three statements. */
  predicate IsFixed(word: string) {
    || word == "SELECT" || word == "UPDATE" || word == "DELETE FROM" || word == "WHERE" || word == "FROM" || word == "SET"
    || word == "AS" || word == "," || word == "=" || word == "!=" || word == ">" || word == "<" || word == ">=" || word == "<="
  }

  lemma FixedIsReserved(word: string)
    requires IsFixed(word)
    ensures word in Reserved() && Upper(word) == word
  {}

  /** What tells the reserved words apart. */
  lemma FixedShape(w: string)
    requires w in Reserved()
    ensures w != ""
    ensures w[0] == 'S' ==> w == "SELECT" || w == "SET"
    ensures w[0] == 'U' ==> w == "UPDATE"
    ensures w[0] == 'D' ==> w == "DELETE FROM"
    ensures w[0] == 'W' ==> w == "WHERE"
    ensures w[0] == 'F' ==> w == "FROM"
    ensures w[0] == 'A' ==> w == "AS"
    ensures w[0] == ',' ==> w == ","
    ensures w[0] == '=' ==> w == "="
    ensures w[0] == '!' ==> w == "!="
    ensures w[0] == '>' ==> w == ">=" || w == ">"
    ensures w[0] == '<' ==> w == "<=" || w == "<"
    ensures w[0] != '*'
  {}

  /** Words that a text starts with agree in every place that both have. */
  lemma SameText(s: string, w: string, i: nat)
    requires StartsWith(s, w) && i < |w|
    ensures w[i] == UpperChar(s[i])
  {
    UpperAt(s[..|w|], i);
  }

  lemma OtherText(s: string, w: string, i: nat)
    requires i < |w| && i < |s| && w[i] != UpperChar(s[i])
    ensures !StartsWith(s, w)
  {
    hide Upper;
    if |w| <= |s| { UpperAt(s[..|w|], i); }
  }

  /** The same letters, some of them small. */
  predicate InAnyCase(k: string, word: string) {
    && |k| == |word|
    && forall i | 0 <= i < |k| :: k[i] == word[i] || ('A' <= word[i] <= 'Z' && k[i] as int == word[i] as int + 32)
  }

  lemma {:induction false} EarliestWord(s: string, words: seq<string>, k: nat)
    requires k < |words| && StartsWith(s, words[k]) && forall i | 0 <= i < k :: !StartsWith(s, words[i])
    ensures FirstWord(s, words) == Some(words[k])
  {
    hide StartsWith;
    if k > 0 { EarliestWord(s, words[1..], k - 1); }
  }

  /** The two signs that start with another one come before it. */
  lemma LongSignFirst(s: string, word: string)
    requires (word == ">=" || word == "<=") && StartsWith(s, word)
    ensures FirstWord(s, Reserved()) == Some(word)
  {
    hide StartsWith, FirstWord;
    SameText(s, word, 0);
    forall i | 0 <= i < (if word == ">=" then 2 else 3) ensures !StartsWith(s, Reserved()[i]) {
      if StartsWith(s, Reserved()[i]) { SameText(s, Reserved()[i], 0); }
    }
    EarliestWord(s, Reserved(), if word == ">=" then 2 else 3);
  }

  lemma FixedToken(word: string, more: string)
    requires IsFixed(word)
    ensures First(word + (" " + more)) == Named(word) && (word + (" " + more))[|word|..] == " " + more
  {
    hide Reserved, Upper, First;
    FixedIsReserved(word);
    SpelledToken(word, word, more);
  }

  lemma UpperInAnyCase(k: string, word: string)
    requires IsFixed(word) && InAnyCase(k, word)
    ensures Upper(k) == word
  {
    hide Reserved;
    FixedIsReserved(word);
    forall i | 0 <= i < |k| ensures Upper(k)[i] == word[i] {
      UpperAt(k, i);
      UpperAt(word, i);
    }
  }

  /** A reserved word in any case is one token before a space. */
  lemma SpelledToken(k: string, word: string, more: string)
    requires IsFixed(word) && InAnyCase(k, word)
    ensures First(k + (" " + more)) == Token(word, k, false) && (k + (" " + more))[|k|..] == " " + more
  {
    hide Reserved, FirstWord, Upper;
    var s := k + (" " + more);
    assert s[..|k|] == k;
    FixedIsReserved(word);
    UpperInAnyCase(k, word);
    FirstWordIsReserved(s, Reserved());
    assert StartsWith(s, word);
    var w := FirstWord(s, Reserved()).value;
    FixedShape(w);
    SameText(s, w, 0);
    SameText(s, word, 0);
    if word == ">=" || word == "<=" {
      LongSignFirst(s, word);
    } else if |w| > |word| {
      SameText(s, w, |word|);
    } else if w != word {
      SameText(s, w, 2);
      SameText(s, word, 2);
    }
  }

  // ---------- A text read from left to right ----------

  predicate Plain(s: string) {
    s != "" && s[0] != ' '
  }

  lemma FixedStep(m: Machine, word: string, more: string, m': Machine)
    requires Ready(m) && IsFixed(word) && Plain(more) && Feed(m, Named(word)) == Some(m')
    ensures Accepts(m, word + (" " + more)) == Accepts(m', more)
  {
    hide First, Feed, Ready, Accepts;
    FixedToken(word, more);
    OneSpace(more);
    Step(m, word + (" " + more), Named(word), more, m');
  }

  /** Reserved words may be written in any case: the text is read in the same way. */
  lemma CaseIsIgnored(m: Machine, k: string, word: string, more: string)
    requires Ready(m) && IsFixed(word) && InAnyCase(k, word)
    ensures Accepts(m, k + (" " + more)) == Accepts(m, word + (" " + more))
  {
    hide Reserved, Accepts, First;
    var s, s' := k + (" " + more), word + (" " + more);
    SpelledToken(k, word, more);
    FixedToken(word, more);
    FixedIsReserved(word);
    ReadAlike(m, s, s');
  }

  lemma ReadAlike(m: Machine, s: string, s': string)
    requires Ready(m) && s != "" && s' != "" && Behind(s) == Behind(s')
    requires First(s).raw != "" && First(s').raw != "" && First(s) == First(s').(raw := First(s).raw)
    ensures Accepts(m, s) == Accepts(m, s')
  {
    hide First, Behind, Feed, Ready;
    FeedIgnoresRaw(m, First(s), First(s').raw);
  }

  lemma FeedIgnoresRaw(m: Machine, t: Token, raw: string)
    requires Ready(m) && t.raw != "" && raw != ""
    ensures Feed(m, t) == Feed(m, t.(raw := raw))
  {
    hide IsIdentifier, Upper, OperatorOf, WithLast, InRows, InUpdate;
    hide FeedSelect, FeedInsert, FeedUpdate, FeedWhere;
    FamiliesIgnoreRaw(m, t, raw);
  }

  lemma FamiliesIgnoreRaw(m: Machine, t: Token, raw: string)
    requires Ready(m) && t.raw != "" && raw != ""
    ensures FeedSelect(m, t) == FeedSelect(m, t.(raw := raw))
    ensures FeedInsert(m, t) == FeedInsert(m, t.(raw := raw))
    ensures FeedUpdate(m, t) == FeedUpdate(m, t.(raw := raw))
    ensures FeedWhere(m, t) == FeedWhere(m, t.(raw := raw))
  {
    hide IsIdentifier, Upper, OperatorOf;
  }

  lemma WordStep(m: Machine, word: string, rest: string, m': Machine)
    requires Ready(m) && IsWord(word) && EndsWord(rest) && Feed(m, Named(word)) == Some(m')
    ensures Accepts(m, word + rest) == Accepts(m', DropSpaces(rest))
  {
    hide First, Feed, Ready, Accepts, Reserved;
    WordToken(word, rest);
    Step(m, word + rest, Named(word), DropSpaces(rest), m');
  }

  lemma LiteralStep(m: Machine, v: string, rest: string, m': Machine)
    requires Ready(m) && IsValue(v) && Feed(m, Token(v, "'" + v + "'", true)) == Some(m')
    ensures Accepts(m, "'" + v + "'" + rest) == Accepts(m', DropSpaces(rest))
  {
    hide First, Feed, Ready, Accepts, IsValue;
    ValueToken(v, rest);
    Step(m, "'" + v + "'" + rest, Token(v, "'" + v + "'", true), DropSpaces(rest), m');
  }

  lemma EndOfText(m: Machine)
    requires Ready(m) && m.state != Alias
    ensures Accepts(m, DropSpaces("")) == Some(m)
  {}

  lemma WordIsPlain(word: string)
    requires IsWord(word)
    ensures Plain(word)
  {
    hide Reserved;
    assert IsIdentChar(word[0]);
  }

  // ---------- Tests ----------

  function Put(m: Machine, state: State, l: seq<Condition>): Machine {
    m.(state := state, query := m.query.(conditions := l))
  }

  lemma SignFeeds(m: Machine, l: seq<Condition>, c: Condition, op: Operator)
    requires m.state == WhereOperator && m.query.conditions == l + [c] && op != UnknownOperator
    ensures IsFixed(Sign(op)) && Ready(m)
    ensures Feed(m, Named(Sign(op))) == Some(Put(m, WhereValue, l + [c.(operator := op)]))
  {
    hide Feed;
    Families(m, Named(Sign(op)));
    assert (l + [c])[|l| := c.(operator := op)] == l + [c.(operator := op)];
  }

  lemma OperandFeeds(m: Machine, l: seq<Condition>, c: Condition, t: Token)
    requires m.state == WhereValue && m.query.conditions == l + [c] && t.raw != "" && (t.quoted || IsIdentifier(t.text))
    ensures Ready(m)
    ensures Feed(m, t) == Some(Put(m, WhereAnd, l + [c.(operand2 := t.text, operand2IsField := IsIdentifier(t.text))]))
  {
    hide Feed, IsIdentifier;
    Families(m, t);
    var c' := c.(operand2 := t.text, operand2IsField := IsIdentifier(t.text));
    assert (l + [c])[|l| := c'] == l + [c'];
  }

  lemma ColumnFeeds(m: Machine, word: string)
    requires m.state == WhereField && IsColumn(word)
    ensures Ready(m)
    ensures Feed(m, Named(word)) ==
            Some(Put(m, WhereOperator, m.query.conditions + [Condition(word, true, UnknownOperator, "", false)]))
  {
    hide Feed, IsIdentifier, Reserved;
    ColumnIsIdentifier(word);
    Families(m, Named(word));
  }

  function WithTest(m: Machine, t: Test): Machine {
    Put(m, WhereAnd, m.query.conditions + [Read(t)])
  }

  lemma OperandParse(m: Machine, l: seq<Condition>, t: Test, rest: string)
    requires m.state == WhereValue && IsTest(t) && EndsWord(rest)
    requires m.query.conditions == l + [Condition(t.field, true, t.operator, "", false)]
    ensures Ready(Put(m, WhereAnd, l + [Read(t)]))
    ensures Accepts(m, RenderOperand(t.right) + rest) == Accepts(Put(m, WhereAnd, l + [Read(t)]), DropSpaces(rest))
  {
    hide Feed, Accepts, Reserved, IsIdentifier, IsWord, IsValue;
    var c := Condition(t.field, true, t.operator, "", false);
    match t.right
    case Column(name) =>
      ColumnIsIdentifier(name);
      OperandFeeds(m, l, c, Named(name));
      WordStep(m, name, rest, Put(m, WhereAnd, l + [Read(t)]));
    case Literal(value) =>
      OperandFeeds(m, l, c, Token(value, "'" + value + "'", true));
      LiteralStep(m, value, rest, Put(m, WhereAnd, l + [Read(t)]));
  }

  lemma TestParse(m: Machine, t: Test, rest: string)
    requires m.state == WhereField && IsTest(t) && EndsWord(rest)
    ensures Ready(m) && Ready(WithTest(m, t))
    ensures Accepts(m, RenderTest(t) + rest) == Accepts(WithTest(m, t), DropSpaces(rest))
  {
    hide Accepts, Feed, IsIdentifier, Reserved, IsWord, IsValue, Sign, RenderOperand, Read;
    var l, c := m.query.conditions, Condition(t.field, true, UnknownOperator, "", false);
    var m1 := Put(m, WhereOperator, l + [c]);
    var m2 := Put(m, WhereValue, l + [c.(operator := t.operator)]);
    var right := RenderOperand(t.right) + rest;
    var tail := " " + (Sign(t.operator) + (" " + right));
    assert RenderTest(t) + rest == t.field + tail;
    ColumnFeeds(m, t.field);
    SignFeeds(m1, l, c, t.operator);
    OperandIsPlain(t.right, rest);
    OperandParse(m2, l, t, rest);
    hide Ready;
    WordStep(m, t.field, tail, m1);
    OneSpace(Sign(t.operator) + (" " + right));
    FixedStep(m1, Sign(t.operator), right, m2);
  }

  lemma OperandIsPlain(r: Operand, rest: string)
    requires r.Column? ==> IsColumn(r.name)
    ensures Plain(RenderOperand(r) + rest)
  {
    hide Reserved;
    if r.Column? { WordIsPlain(r.name); }
  }

  lemma AndIsWord()
    ensures IsWord("AND") && Upper("AND") == "AND"
  {
    hide Reserved;
    forall w | w in Reserved() ensures !StartsWith("AND", w) {
      FixedShape(w);
      if StartsWith("AND", w) {
        SameText("AND", w, 0);
        SameText("AND", "AS", 1);
      }
    }
  }

  lemma AndStep(m: Machine, more: string)
    requires m.state == WhereAnd && m.query.conditions != [] && Plain(more)
    ensures Ready(m) && Accepts(m, "AND" + (" " + more)) == Accepts(m.(state := WhereField), more)
  {
    AndIsWord();
    Families(m, Named("AND"));
    assert Feed(m, Named("AND")) == Some(m.(state := WhereField));
    hide Accepts, Feed, IsWord, Ready;
    WordStep(m, "AND", " " + more, m.(state := WhereField));
    OneSpace(more);
  }

  lemma TestIsPlain(t: Test, rest: string)
    requires IsTest(t)
    ensures Plain(RenderTest(t) + rest) && Plain(RenderTest(t))
  {
    hide Reserved;
    WordIsPlain(t.field);
  }

  function WithTests(m: Machine, l: seq<Test>): Machine {
    m.(state := WhereAnd, query := m.query.(conditions := m.query.conditions + AllRead(l)))
  }

  lemma TestsAreMore(m: Machine, l: seq<Test>)
    requires l != []
    ensures l == [l[0]] ==> WithTests(m, l) == WithTest(m, l[0])
    ensures WithTests(WithTest(m, l[0]).(state := WhereField), l[1..]) == WithTests(m, l)
  {
    hide Read;
    assert AllRead(l) == [Read(l[0])] + AllRead(l[1..]);
  }

  /** The tests up to the end of the text. */
  lemma {:induction false} TestsParse(m: Machine, l: seq<Test>)
    requires m.state == WhereField && AreTests(l)
    ensures Accepts(m, RenderTests(l)) == Some(WithTests(m, l))
    decreases |l|
  {
    hide Accepts, IsTest, RenderTest, AllRead, WithTests, Read;
    TestsAreMore(m, l);
    var m1 := WithTest(m, l[0]);
    if |l| == 1 {
      TestParse(m, l[0], "");
      EndOfText(m1);
      assert l == [l[0]] && RenderTest(l[0]) + "" == RenderTests(l);
    } else {
      var more := RenderTests(l[1..]);
      assert RenderTests(l) == RenderTest(l[0]) + (" " + ("AND" + (" " + more)));
      TestParse(m, l[0], " " + ("AND" + (" " + more)));
      OneSpace("AND" + (" " + more));
      assert l[1] == l[1..][0];
      TestIsPlain(l[1], if |l| == 2 then "" else " AND " + RenderTests(l[2..]));
      AndStep(m1, more);
      TestsParse(m1.(state := WhereField), l[1..]);
    }
  }

  // ---------- The clauses ----------

  lemma WhereParse(m: Machine, tests: seq<Test>)
    requires Ready(m) && (m.state == Where || m.state == AfterValue) && AreTests(tests)
    ensures Accepts(m, "WHERE" + (" " + RenderTests(tests))) == Some(WithTests(m, tests))
  {
    hide IsTest, RenderTest, AllRead, Accepts, Reserved;
    Families(m, Named("WHERE"));
    FixedIsReserved("WHERE");
    assert Feed(m, Named("WHERE")) == Some(m.(state := WhereField));
    hide Feed, Ready;
    TestIsPlain(tests[0], if |tests| == 1 then "" else " AND " + RenderTests(tests[1..]));
    TestsParse(m.(state := WhereField), tests);
    FixedStep(m, "WHERE", RenderTests(tests), m.(state := WhereField));
  }

  function Opened(typ: QueryType): Machine {
    match typ
    case Select => Machine(SelectField, EmptyQuery.(typ := Select), "")
    case Update => Machine(UpdateTable, EmptyQuery.(typ := Update, updates := Some(map[])), "")
    case _ => Machine(DeleteTable, EmptyQuery.(typ := Delete), "")
  }

  lemma StatementOpens(more: string)
    requires Plain(more)
    ensures Ready(Opened(Select)) && Accepts(Begin, "SELECT" + (" " + more)) == Accepts(Opened(Select), more)
    ensures Ready(Opened(Update)) && Accepts(Begin, "UPDATE" + (" " + more)) == Accepts(Opened(Update), more)
    ensures Ready(Opened(Delete)) && Accepts(Begin, "DELETE FROM" + (" " + more)) == Accepts(Opened(Delete), more)
  {
    hide Reserved, Accepts, Upper;
    FixedIsReserved("SELECT");
    FixedIsReserved("UPDATE");
    FixedIsReserved("DELETE FROM");
    assert Feed(Begin, Named("SELECT")) == Some(Opened(Select));
    assert Feed(Begin, Named("UPDATE")) == Some(Opened(Update));
    assert Feed(Begin, Named("DELETE FROM")) == Some(Opened(Delete));
    hide Feed;
    FixedStep(Begin, "SELECT", more, Opened(Select));
    FixedStep(Begin, "UPDATE", more, Opened(Update));
    FixedStep(Begin, "DELETE FROM", more, Opened(Delete));
  }

  /** The table of a SELECT or DELETE statement, and what may follow it. */
  lemma TableParse(m: Machine, table: string, tests: seq<Test>)
    requires (m.state == FromTable || m.state == DeleteTable) && m.query.conditions == []
    requires IsWord(table) && (tests == [] || AreTests(tests))
    ensures Ready(m)
    ensures Accepts(m, table + if tests == [] then "" else " WHERE " + RenderTests(tests)) ==
            Some(m.(state := if tests == [] then Where else WhereAnd,
                    query := m.query.(tableName := table, conditions := AllRead(tests))))
  {
    hide IsTest, RenderTest, AllRead, Accepts, Reserved, RenderTests, Feed;
    var m1 := m.(state := Where, query := m.query.(tableName := table));
    TableFeeds(m, table);
    if tests == [] {
      WordStep(m, table, "", m1);
      EndOfText(m1);
      NothingRead();
      assert table + "" == table;
    } else {
      var rest := "WHERE" + (" " + RenderTests(tests));
      assert " WHERE " + RenderTests(tests) == " " + rest;
      WordStep(m, table, " " + rest, m1);
      OneSpace(rest);
      WhereParse(m1, tests);
      assert [] + AllRead(tests) == AllRead(tests);
    }
  }

  lemma NothingRead()
    ensures AllRead([]) == []
  {}

  lemma TableFeeds(m: Machine, table: string)
    requires (m.state == FromTable || m.state == DeleteTable) && IsWord(table)
    ensures Ready(m) && Feed(m, Named(table)) == Some(m.(state := Where, query := m.query.(tableName := table)))
  {
    hide Feed, IsIdentifier, Reserved, Upper;
    Families(m, Named(table));
  }

  // ---------- SELECT ----------

  function WithField(m: Machine, f: Field): Machine {
    m.(state := if f.alias.Some? then AfterAlias else AfterField,
       query := m.query.(fields := m.query.fields + [f.name],
                         aliases := if f.alias.Some? then m.query.aliases[f.name := f.alias.value] else m.query.aliases))
  }

  lemma FieldIsWord(name: string)
    requires IsColumn(name) || name == "*"
    ensures IsWord(name)
  {
    hide Reserved;
    if name == "*" {
      forall w | w in Reserved() ensures !StartsWith("*", w) {
        FixedShape(w);
        OtherText("*", w, 0);
      }
    }
  }

  lemma FieldFeeds(m: Machine, name: string)
    requires m.state == SelectField && (IsColumn(name) || name == "*")
    ensures Ready(m)
    ensures Feed(m, Named(name)) == Some(WithField(m, Field(name, None)))
  {
    hide Feed, IsIdentifier, Reserved;
    FieldIsWord(name);
    if name != "*" { ColumnIsIdentifier(name); }
    Families(m, Named(name));
  }

  lemma AliasFeeds(m: Machine, alias: string)
    requires m.state == AfterField && m.query.fields != [] && IsColumn(alias)
    ensures Ready(m) && Feed(m, Named("AS")) == Some(m.(state := Alias))
    ensures Ready(m.(state := Alias))
    ensures Feed(m.(state := Alias), Named(alias)) ==
            Some(m.(state := AfterAlias,
                    query := m.query.(aliases := m.query.aliases[m.query.fields[|m.query.fields|-1] := alias])))
  {
    hide Feed, IsIdentifier, Reserved, Upper;
    FixedIsReserved("AS");
    ColumnIsIdentifier(alias);
    Families(m, Named("AS"));
    Families(m.(state := Alias), Named(alias));
  }

  lemma FieldParse(m: Machine, f: Field, rest: string)
    requires m.state == SelectField && IsField(f) && EndsWord(rest)
    ensures Ready(m) && Ready(WithField(m, f))
    ensures Accepts(m, RenderField(f) + rest) == Accepts(WithField(m, f), DropSpaces(rest))
  {
    hide Accepts, Feed, IsIdentifier, Reserved, IsWord;
    var m1 := WithField(m, Field(f.name, None));
    FieldIsWord(f.name);
    FieldFeeds(m, f.name);
    if f.alias.None? {
      assert RenderField(f) + rest == f.name + rest;
      WordStep(m, f.name, rest, m1);
    } else {
      var a := f.alias.value;
      var tail := "AS" + (" " + (a + rest));
      assert RenderField(f) + rest == f.name + (" " + tail);
      AliasFeeds(m1, a);
      WordIsPlain(a);
      WordStep(m, f.name, " " + tail, m1);
      OneSpace(tail);
      FixedStep(m1, "AS", a + rest, m1.(state := Alias));
      WordStep(m1.(state := Alias), a, rest, WithField(m, f));
    }
  }

  lemma BetweenFields(m: Machine, more: string)
    requires (m.state == AfterField || m.state == AfterAlias) && m.query.fields != [] && Plain(more)
    ensures Ready(m) && Accepts(m, "," + (" " + more)) == Accepts(m.(state := SelectField), more)
    ensures Accepts(m, "FROM" + (" " + more)) == Accepts(m.(state := FromTable), more)
  {
    hide Accepts, Feed, Reserved, Upper;
    FixedIsReserved(",");
    FixedIsReserved("FROM");
    Families(m, Named(","));
    Families(m, Named("FROM"));
    hide FeedSelect;
    FixedStep(m, ",", more, m.(state := SelectField));
    FixedStep(m, "FROM", more, m.(state := FromTable));
  }

  function WithFields(m: Machine, l: seq<Field>): Machine {
    m.(state := FromTable, query := m.query.(fields := m.query.fields + Names(l), aliases := m.query.aliases + Aliases(l)))
  }

  /** The aliases of a list, read from its front. */
  lemma {:induction false} AliasesFromFront(l: seq<Field>)
    requires l != []
    ensures Aliases(l) == (if l[0].alias.Some? then map[l[0].name := l[0].alias.value] else map[]) + Aliases(l[1..])
  {
    if |l| > 1 {
      AliasesFromFront(l[..|l|-1]);
      assert l[..|l|-1][1..] == l[1..][..|l|-2];
    }
  }

  lemma FieldsAreMore(m: Machine, l: seq<Field>)
    requires l != []
    ensures l == [l[0]] ==> WithFields(m, l) == WithField(m, l[0]).(state := FromTable)
    ensures WithFields(WithField(m, l[0]).(state := SelectField), l[1..]) == WithFields(m, l)
  {
    hide Aliases;
    AliasesFromFront(l);
    NoAliases();
    assert Names(l) == [l[0].name] + Names(l[1..]);
  }

  lemma NoAliases()
    ensures Aliases([]) == map[]
  {}

  lemma FieldsArePlain(l: seq<Field>, rest: string)
    requires l != [] && IsField(l[0])
    ensures Plain(RenderFields(l) + rest)
  {
    hide IsWord;
    FieldIsWord(l[0].name);
    WordIsPlain(l[0].name);
  }

  lemma {:induction false} FieldsParse(m: Machine, l: seq<Field>, more: string)
    requires m.state == SelectField && AreFields(l) && Plain(more)
    ensures Ready(WithFields(m, l))
    ensures Accepts(m, RenderFields(l) + (" " + ("FROM" + (" " + more)))) == Accepts(WithFields(m, l), more)
    decreases |l|
  {
    hide Accepts, IsField, RenderField, Names, Aliases;
    var end := " " + ("FROM" + (" " + more));
    var m1 := WithField(m, l[0]);
    FieldsAreMore(m, l);
    if |l| == 1 {
      assert RenderFields(l) + end == RenderField(l[0]) + end;
      FieldParse(m, l[0], end);
      OneSpace("FROM" + (" " + more));
      BetweenFields(m1, more);
    } else {
      var next := RenderFields(l[1..]) + end;
      assert RenderFields(l) + end == RenderField(l[0]) + ("," + (" " + next));
      FieldParse(m, l[0], "," + (" " + next));
      OneSpace("," + (" " + next));
      FieldsArePlain(l[1..], end);
      BetweenFields(m1, next);
      FieldsParse(m1.(state := SelectField), l[1..], more);
    }
  }

  lemma SelectParse(fields: seq<Field>, table: string, tests: seq<Test>)
    requires AreFields(fields) && IsWord(table) && (tests == [] || AreTests(tests))
    ensures Accepts(Begin, RenderSelect(fields, table, tests)) ==
            Some(Machine(if tests == [] then Where else WhereAnd,
                         EmptyQuery.(typ := Select, tableName := table, conditions := AllRead(tests),
                                     fields := Names(fields), aliases := Aliases(fields)), ""))
  {
    hide Accepts, IsField, IsTest, Reserved, Names, Aliases, AllRead, RenderFields, RenderTests;
    var end := table + if tests == [] then "" else " WHERE " + RenderTests(tests);
    var more := RenderFields(fields) + (" " + ("FROM" + (" " + end)));
    assert RenderSelect(fields, table, tests) == "SELECT" + (" " + more);
    FieldsArePlain(fields, " " + ("FROM" + (" " + end)));
    StatementOpens(more);
    WordIsPlain(table);
    FieldsParse(Opened(Select), fields, end);
    TableParse(WithFields(Opened(Select), fields), table, tests);
    assert [] + Names(fields) == Names(fields) && map[] + Aliases(fields) == Aliases(fields);
  }

  /** Every rendered SELECT statement parses back: any number of fields with or without
      aliases, any table, any number of tests. */
  lemma SelectRoundTrip(fields: seq<Field>, table: string, tests: seq<Test>)
    requires AreFields(fields) && IsWord(table) && (tests == [] || AreTests(tests))
    ensures Parsed(RenderSelect(fields, table, tests)) ==
            Some(EmptyQuery.(typ := Select, tableName := table, conditions := AllRead(tests),
                             fields := Names(fields), aliases := Aliases(fields)))
    ensures Unambiguous(tests) <==>
              Parsed(RenderSelect(fields, table, tests)) ==
              Some(EmptyQuery.(typ := Select, tableName := table, conditions := AllMeant(tests),
                               fields := Names(fields), aliases := Aliases(fields)))
  {
    hide Accepts, IsField, IsTest, Reserved, Names, Aliases, AllRead, AllMeant, Unambiguous, RenderSelect;
    SelectParse(fields, table, tests);
    ReadAsMeant(tests);
    TestsPass(tests);
  }

  /** What the tests of a statement need to pass the checks. */
  lemma TestsPass(tests: seq<Test>)
    requires forall i | 0 <= i < |tests| :: IsTest(tests[i])
    ensures |AllRead(tests)| == |tests|
    ensures forall c | c in AllRead(tests) ::
              c.operator != UnknownOperator && c.operand1 != "" && (c.operand2IsField ==> c.operand2 != "")
  {
    hide Reserved;
  }

  // ---------- DELETE ----------

  lemma DeleteParse(table: string, tests: seq<Test>)
    requires IsWord(table) && AreTests(tests)
    ensures Accepts(Begin, RenderDelete(table, tests)) ==
            Some(Machine(WhereAnd, EmptyQuery.(typ := Delete, tableName := table, conditions := AllRead(tests)), ""))
  {
    hide Accepts, IsTest, Reserved, AllRead, RenderTests;
    var end := table + (" WHERE " + RenderTests(tests));
    assert RenderDelete(table, tests) == "DELETE FROM" + (" " + end);
    WordIsPlain(table);
    StatementOpens(end);
    TableParse(Opened(Delete), table, tests);
  }

  /** Every rendered DELETE statement parses back. */
  lemma DeleteRoundTrip(table: string, tests: seq<Test>)
    requires IsWord(table) && AreTests(tests)
    ensures Parsed(RenderDelete(table, tests)) ==
            Some(EmptyQuery.(typ := Delete, tableName := table, conditions := AllRead(tests)))
    ensures Unambiguous(tests) <==>
              Parsed(RenderDelete(table, tests)) ==
              Some(EmptyQuery.(typ := Delete, tableName := table, conditions := AllMeant(tests)))
  {
    hide Accepts, IsTest, Reserved, AllRead, AllMeant, Unambiguous, RenderDelete;
    DeleteParse(table, tests);
    ReadAsMeant(tests);
    TestsPass(tests);
  }

  // ---------- UPDATE ----------

  function WithUpdates(m: Machine, l: seq<Assignment>): Machine
    requires m.query.updates.Some?
  {
    m.(state := AfterValue, query := m.query.(updates := Some(m.query.updates.value + Updates(l))), next := "")
  }

  lemma AssignmentFeeds(m: Machine, a: Assignment)
    requires m.state == UpdateField && m.query.updates.Some? && IsColumn(a.field)
    ensures Ready(m) && Feed(m, Named(a.field)) == Some(m.(state := UpdateEquals, next := a.field))
    ensures Ready(m.(state := UpdateEquals, next := a.field))
    ensures Feed(m.(state := UpdateEquals, next := a.field), Named("=")) == Some(m.(state := UpdateValue, next := a.field))
    ensures Ready(m.(state := UpdateValue, next := a.field))
    ensures Feed(m.(state := UpdateValue, next := a.field), Token(a.value, "'" + a.value + "'", true)) ==
            Some(WithUpdates(m, [a]))
  {
    hide Feed, IsIdentifier, Reserved, Upper;
    ColumnIsIdentifier(a.field);
    Families(m, Named(a.field));
    Families(m.(state := UpdateEquals, next := a.field), Named("="));
    Families(m.(state := UpdateValue, next := a.field), Token(a.value, "'" + a.value + "'", true));
    OneUpdate(m.query.updates.value, a);
  }

  lemma OneUpdate(base: map<string, string>, a: Assignment)
    ensures base + Updates([a]) == base[a.field := a.value]
  {
    assert Updates([a]) == map[a.field := a.value];
  }

  lemma AssignmentParse(m: Machine, a: Assignment, rest: string)
    requires m.state == UpdateField && m.query.updates.Some? && IsColumn(a.field) && IsValue(a.value)
    ensures Ready(m) && Ready(WithUpdates(m, [a]))
    ensures Accepts(m, a.field + " = '" + a.value + "'" + rest) == Accepts(WithUpdates(m, [a]), DropSpaces(rest))
  {
    hide Accepts, Feed, IsIdentifier, Reserved, IsWord, IsValue, Updates;
    var literal := "'" + a.value + "'" + rest;
    var tail := "=" + (" " + literal);
    assert a.field + " = '" + a.value + "'" + rest == a.field + (" " + tail);
    AssignmentFeeds(m, a);
    WordStep(m, a.field, " " + tail, m.(state := UpdateEquals, next := a.field));
    OneSpace(tail);
    FixedStep(m.(state := UpdateEquals, next := a.field), "=", literal, m.(state := UpdateValue, next := a.field));
    LiteralStep(m.(state := UpdateValue, next := a.field), a.value, rest, WithUpdates(m, [a]));
  }

  lemma NextAssignment(m: Machine, more: string)
    requires m.state == AfterValue && m.query.updates.Some? && Plain(more)
    ensures Ready(m) && Accepts(m, "," + (" " + more)) == Accepts(m.(state := UpdateField), more)
  {
    hide Accepts, Feed, Reserved, Upper;
    FixedIsReserved(",");
    Families(m, Named(","));
    assert Feed(m, Named(",")) == Some(m.(state := UpdateField));
    FixedStep(m, ",", more, m.(state := UpdateField));
  }

  /** The updates of a list, read from its front. */
  lemma {:induction false} UpdatesFromFront(l: seq<Assignment>)
    requires l != []
    ensures Updates(l) == Updates([l[0]]) + Updates(l[1..])
  {
    if |l| > 1 {
      UpdatesFromFront(l[..|l|-1]);
      assert l[..|l|-1][1..] == l[1..][..|l|-2];
    }
  }

  lemma AssignmentsAreMore(m: Machine, l: seq<Assignment>)
    requires l != [] && m.query.updates.Some?
    ensures WithUpdates(WithUpdates(m, [l[0]]).(state := UpdateField), l[1..]) == WithUpdates(m, l)
  {
    hide Updates;
    UpdatesFromFront(l);
    var base := m.query.updates.value;
    assert base + Updates([l[0]]) + Updates(l[1..]) == base + Updates(l);
  }

  lemma {:induction false} AssignmentsParse(m: Machine, l: seq<Assignment>, rest: string)
    requires m.state == UpdateField && m.query.updates.Some? && AreAssignments(l)
    ensures Ready(m) && Ready(WithUpdates(m, l))
    ensures Accepts(m, RenderAssignments(l) + rest) == Accepts(WithUpdates(m, l), DropSpaces(rest))
    decreases |l|
  {
    hide Accepts, IsColumn, IsValue, Updates;
    if |l| == 1 {
      AssignmentParse(m, l[0], rest);
      assert RenderAssignments(l) + rest == l[0].field + " = '" + l[0].value + "'" + rest && l == [l[0]];
    } else {
      var next := RenderAssignments(l[1..]) + rest;
      assert RenderAssignments(l) + rest == l[0].field + " = '" + l[0].value + "'" + ("," + (" " + next));
      AssignmentParse(m, l[0], "," + (" " + next));
      OneSpace("," + (" " + next));
      AssignmentsArePlain(l[1..], rest);
      NextAssignment(WithUpdates(m, [l[0]]), next);
      AssignmentsParse(WithUpdates(m, [l[0]]).(state := UpdateField), l[1..], rest);
      AssignmentsAreMore(m, l);
    }
  }

  lemma AssignmentsArePlain(l: seq<Assignment>, rest: string)
    requires l != [] && IsColumn(l[0].field)
    ensures Plain(RenderAssignments(l) + rest)
  {
    hide IsWord;
    WordIsPlain(l[0].field);
  }

  lemma UpdateHead(table: string, more: string)
    requires IsWord(table) && Plain(more)
    ensures Ready(Opened(Update))
    ensures var q := Opened(Update).query;
            Accepts(Opened(Update), table + (" " + ("SET" + (" " + more)))) ==
            Accepts(Machine(UpdateField, q.(tableName := table), ""), more)
  {
    hide Accepts, Feed, Reserved, Upper, IsWord;
    var m := Opened(Update);
    var m1 := Machine(UpdateSet, m.query.(tableName := table), "");
    WordIsPlain(table);
    Families(m, Named(table));
    Families(m1, Named("SET"));
    assert Feed(m, Named(table)) == Some(m1);
    assert Feed(m1, Named("SET")) == Some(m1.(state := UpdateField));
    WordStep(m, table, " " + ("SET" + (" " + more)), m1);
    OneSpace("SET" + (" " + more));
    FixedStep(m1, "SET", more, m1.(state := UpdateField));
  }

  lemma UpdateParse(table: string, l: seq<Assignment>, tests: seq<Test>)
    requires IsWord(table) && AreAssignments(l) && AreTests(tests)
    ensures Accepts(Begin, RenderUpdate(table, l, tests)) ==
            Some(Machine(WhereAnd, EmptyQuery.(typ := Update, tableName := table, conditions := AllRead(tests),
                                               updates := Some(Updates(l))), ""))
  {
    hide Accepts, IsColumn, IsTest, Reserved, Updates, AllRead, RenderAssignments, RenderTests;
    var end := "WHERE" + (" " + RenderTests(tests));
    var more := RenderAssignments(l) + (" " + end);
    var m := Machine(UpdateField, Opened(Update).query.(tableName := table), "");
    assert RenderUpdate(table, l, tests) == "UPDATE" + (" " + (table + (" " + ("SET" + (" " + more)))));
    WordIsPlain(table);
    StatementOpens(table + (" " + ("SET" + (" " + more))));
    AssignmentsArePlain(l, " " + end);
    UpdateHead(table, more);
    AssignmentsParse(m, l, " " + end);
    OneSpace(end);
    WhereParse(WithUpdates(m, l), tests);
    assert [] + AllRead(tests) == AllRead(tests) && map[] + Updates(l) == Updates(l);
  }

  /** Every rendered UPDATE statement parses back: any number of assignments and tests. */
  lemma UpdateRoundTrip(table: string, l: seq<Assignment>, tests: seq<Test>)
    requires IsWord(table) && AreAssignments(l) && AreTests(tests)
    ensures Parsed(RenderUpdate(table, l, tests)) ==
            Some(EmptyQuery.(typ := Update, tableName := table, conditions := AllRead(tests), updates := Some(Updates(l))))
    ensures Unambiguous(tests) <==>
              Parsed(RenderUpdate(table, l, tests)) ==
              Some(EmptyQuery.(typ := Update, tableName := table, conditions := AllMeant(tests), updates := Some(Updates(l))))
  {
    hide Accepts, IsColumn, IsTest, Reserved, Updates, AllRead, AllMeant, Unambiguous, RenderUpdate;
    UpdateParse(table, l, tests);
    ReadAsMeant(tests);
    TestsPass(tests);
  }
}
