/** What the SQL parser accepts, apart from how it scans: the tokens of a text, and an
    automaton that reads one token at a time and builds the query.  A text is a string
    of bytes without surrounding space. */
module SqlGrammar {
  import opened Options

  // ---------- Tokens ----------

  /** The text as the parser peeks it, and the characters it was made from. */
  datatype Token = Token(text: string, raw: string, quoted: bool)

  function Reserved(): seq<string> {
    ["(", ")", ">=", "<=", "!=", ",", "=", ">", "<", "SELECT", "INSERT INTO", "VALUES", "UPDATE", "DELETE FROM",
     "WHERE", "FROM", "SET", "AS"]
  }

  function UpperChar(c: char): char {
    if 'a' <= c <= 'z' then (c as int - 32) as char else c
  }

  function Upper(s: string): (r: string)
    ensures |r| == |s|
  {
    seq(|s|, i requires 0 <= i < |s| => UpperChar(s[i]))
  }

  predicate StartsWith(s: string, word: string) {
    |s| >= |word| && Upper(s[..|word|]) == word
  }

  /** The first of the words that s starts with, in any case. */
  function FirstWord(s: string, words: seq<string>): Option<string> {
    if words == [] then None
    else if StartsWith(s, words[0]) then Some(words[0])
    else FirstWord(s, words[1..])
  }

  predicate IsLetter(c: char) {
    'a' <= c <= 'z' || 'A' <= c <= 'Z' || c == '_'
  }

  predicate IsIdentChar(c: char) {
    IsLetter(c) || '0' <= c <= '9' || c == '*' || c == '.'
  }

  function IdentLength(s: string): (n: nat)
    ensures n <= |s|
  {
    if s == [] || !IsIdentChar(s[0]) then 0 else 1 + IdentLength(s[1..])
  }

  /** The first position from i on of a quote that no backslash precedes. */
  function ClosingQuote(s: string, i: nat): (r: Option<nat>)
    requires 1 <= i <= |s|
    ensures r.Some? ==> i <= r.value < |s|
    decreases |s| - i
  {
    if i == |s| then None
    else if s[i] == '\'' && s[i-1] != '\\' then Some(i)
    else ClosingQuote(s, i + 1)
  }

  const NoToken: Token := Token("", "", false)

  function QuotedToken(s: string): Token
    requires s != []
  {
    if s[0] != '\'' then NoToken
    else
      var end := ClosingQuote(s, 1);
      if end.None? then NoToken else Token(s[1..end.value], s[..end.value + 1], true)
  }

  /** The token s starts with; its raw part is empty if s starts with none. */
  function First(s: string): (t: Token)
    ensures t.raw <= s
  {
    if s == [] then NoToken
    else
      var word := FirstWord(s, Reserved());
      if word.Some? then Token(word.value, s[..if |word.value| <= |s| then |word.value| else |s|], false)
      else if s[0] == '\'' then QuotedToken(s)
      else Token(s[..IdentLength(s)], s[..IdentLength(s)], false)
  }

  function DropSpaces(s: string): (r: string)
    ensures |r| <= |s|
  {
    if s != [] && s[0] == ' ' then DropSpaces(s[1..]) else s
  }

  /** What is left behind the first token and the spaces after it. */
  function Behind(s: string): (r: string)
    ensures |r| <= |s| && (First(s).raw != "" ==> |r| < |s|)
  {
    DropSpaces(s[|First(s).raw|..])
  }

  predicate IsIdentifier(text: string) {
    Upper(text) !in Reserved() && exists i :: 0 <= i < |text| && IsLetter(text[i])
  }

  // ---------- Queries ----------

  datatype QueryType = UnknownType | Select | Update | Insert | Delete

  datatype Operator = UnknownOperator | Eq | Ne | Gt | Lt | Gte | Lte

  datatype Condition = Condition(
    operand1: string, operand1IsField: bool, operator: Operator, operand2: string, operand2IsField: bool)

  /** No updates stands for the nil map, which cannot be written to. */
  datatype Query = Query(
    typ: QueryType, tableName: string, conditions: seq<Condition>, updates: Option<map<string, string>>,
    inserts: seq<seq<string>>, fields: seq<string>, aliases: map<string, string>)

  const EmptyQuery: Query := Query(UnknownType, "", [], None, [], [], map[])

  function OperatorOf(text: string): Option<Operator> {
    match text
    case "=" => Some(Eq)
    case ">" => Some(Gt)
    case ">=" => Some(Gte)
    case "<" => Some(Lt)
    case "<=" => Some(Lte)
    case "!=" => Some(Ne)
    case _ => None
  }

  // ---------- The automaton ----------

  datatype State =
    | Start
    | SelectField | AfterField | Alias | AfterAlias | FromTable
    | InsertTable | FieldsOpen | InsertField | AfterInsertField | ValuesWord
    | RowOpen | InsertValue | AfterInsertValue | AfterRow
    | UpdateTable | UpdateSet | UpdateField | UpdateEquals | UpdateValue | AfterValue
    | DeleteTable
    | Where | WhereField | WhereOperator | WhereValue | WhereAnd

  datatype Machine = Machine(state: State, query: Query, next: string)

  const Begin: Machine := Machine(Start, EmptyQuery, "")

  /** What the states need of the query so far. */
  predicate Ready(m: Machine) {
    && (m.state.AfterField? || m.state.Alias? || m.state.AfterAlias? ==> m.query.fields != [])
    && (InRows(m.state) ==> m.query.inserts != [])
    && (InUpdate(m.state) ==> m.query.updates.Some?)
    && (m.state.WhereOperator? || m.state.WhereValue? || m.state.WhereAnd? ==> m.query.conditions != [])
  }

  predicate InRows(s: State) {
    s.InsertValue? || s.AfterInsertValue? || s.AfterRow?
  }

  predicate InUpdate(s: State) {
    s.UpdateTable? || s.UpdateSet? || s.UpdateField? || s.UpdateEquals? || s.UpdateValue? || s.AfterValue?
  }

  function To(m: Machine, state: State, q: Query): Machine {
    m.(state := state, query := q)
  }

  function WithLast<T>(l: seq<T>, x: T): seq<T>
    requires l != []
  {
    l[|l|-1 := x]
  }

  function FeedSelect(m: Machine, t: Token): (r: Option<Machine>)
    requires Ready(m) && t.raw != ""
    ensures r.Some? ==> Ready(r.value)
  {
    var q := m.query;
    match m.state
    case SelectField =>
      if IsIdentifier(t.text) || t.text == "*" then Some(To(m, AfterField, q.(fields := q.fields + [t.text]))) else None
    case AfterField =>
      if Upper(t.text) == "AS" then Some(To(m, Alias, q))
      else if Upper(t.text) == "FROM" then Some(To(m, FromTable, q))
      else if t.text == "," then Some(To(m, SelectField, q))
      else None
    case Alias =>
      if IsIdentifier(t.text) then Some(To(m, AfterAlias, q.(aliases := q.aliases[q.fields[|q.fields|-1] := t.text]))) else None
    case AfterAlias =>
      if Upper(t.text) == "FROM" then Some(To(m, FromTable, q))
      else if t.text == "," then Some(To(m, SelectField, q))
      else None
    case FromTable => if t.text != "" then Some(To(m, Where, q.(tableName := t.text))) else None
    case _ => None
  }

  function FeedInsert(m: Machine, t: Token): (r: Option<Machine>)
    requires Ready(m) && t.raw != ""
    ensures r.Some? ==> Ready(r.value)
  {
    var q := m.query;
    match m.state
    case InsertTable => if t.text != "" then Some(To(m, FieldsOpen, q.(tableName := t.text))) else None
    case FieldsOpen => if t.text == "(" then Some(To(m, InsertField, q)) else None
    case InsertField =>
      if IsIdentifier(t.text) then Some(To(m, AfterInsertField, q.(fields := q.fields + [t.text]))) else None
    case AfterInsertField =>
      if t.text == "," then Some(To(m, InsertField, q))
      else if t.text == ")" then Some(To(m, ValuesWord, q))
      else None
    case ValuesWord => if Upper(t.text) == "VALUES" then Some(To(m, RowOpen, q)) else None
    case RowOpen => if t.text == "(" then Some(To(m, InsertValue, q.(inserts := q.inserts + [[]]))) else None
    case InsertValue =>
      if t.quoted then
        Some(To(m, AfterInsertValue, q.(inserts := WithLast(q.inserts, q.inserts[|q.inserts|-1] + [t.text]))))
      else None
    case AfterInsertValue =>
      if t.text == "," then Some(To(m, InsertValue, q))
      else if t.text == ")" && |q.inserts[|q.inserts|-1]| >= |q.fields| then Some(To(m, AfterRow, q))
      else None
    case AfterRow => if Upper(t.text) == "," then Some(To(m, RowOpen, q)) else None
    case _ => None
  }

  function FeedUpdate(m: Machine, t: Token): (r: Option<Machine>)
    requires Ready(m) && t.raw != ""
    ensures r.Some? ==> Ready(r.value)
  {
    var q := m.query;
    match m.state
    case UpdateTable => if t.text != "" then Some(To(m, UpdateSet, q.(tableName := t.text))) else None
    case UpdateSet => if t.text == "SET" then Some(To(m, UpdateField, q)) else None
    case UpdateField => if IsIdentifier(t.text) then Some(Machine(UpdateEquals, q, t.text)) else None
    case UpdateEquals => if t.text == "=" then Some(To(m, UpdateValue, q)) else None
    case UpdateValue =>
      if t.quoted then Some(Machine(AfterValue, q.(updates := Some(q.updates.value[m.next := t.text])), "")) else None
    case AfterValue =>
      if Upper(t.text) == "WHERE" then Some(To(m, WhereField, q))
      else if t.text == "," then Some(To(m, UpdateField, q))
      else None
    case _ => None
  }

  function FeedWhere(m: Machine, t: Token): (r: Option<Machine>)
    requires Ready(m) && t.raw != ""
    ensures r.Some? ==> Ready(r.value)
  {
    var q := m.query;
    match m.state
    case DeleteTable => if t.text != "" then Some(To(m, Where, q.(tableName := t.text))) else None
    case Where => if Upper(t.text) == "WHERE" then Some(To(m, WhereField, q)) else None
    case WhereField =>
      if IsIdentifier(t.text) then
        Some(To(m, WhereOperator, q.(conditions := q.conditions + [Condition(t.text, true, UnknownOperator, "", false)])))
      else None
    case WhereOperator =>
      var op := OperatorOf(t.text);
      if op.None? then None
      else Some(To(m, WhereValue, q.(conditions := WithLast(q.conditions, q.conditions[|q.conditions|-1].(operator := op.value)))))
    case WhereValue =>
      if IsIdentifier(t.text) || t.quoted then
        var c := q.conditions[|q.conditions|-1].(operand2 := t.text, operand2IsField := IsIdentifier(t.text));
        Some(To(m, WhereAnd, q.(conditions := WithLast(q.conditions, c))))
      else None
    case WhereAnd => if Upper(t.text) == "AND" then Some(To(m, WhereField, q)) else None
    case _ => None
  }

  function Feed(m: Machine, t: Token): (r: Option<Machine>)
    requires Ready(m) && t.raw != ""
    ensures r.Some? ==> Ready(r.value)
  {
    var q := m.query;
    match m.state
    case Start =>
      if Upper(t.text) == "SELECT" then Some(To(m, SelectField, q.(typ := Select)))
      else if Upper(t.text) == "INSERT INTO" then Some(To(m, InsertTable, q.(typ := Insert)))
      else if Upper(t.text) == "UPDATE" then Some(To(m, UpdateTable, q.(typ := Update, updates := Some(map[]))))
      else if Upper(t.text) == "DELETE FROM" then Some(To(m, DeleteTable, q.(typ := Delete)))
      else None
    case SelectField => FeedSelect(m, t)
    case AfterField => FeedSelect(m, t)
    case Alias => FeedSelect(m, t)
    case AfterAlias => FeedSelect(m, t)
    case FromTable => FeedSelect(m, t)
    case UpdateTable => FeedUpdate(m, t)
    case UpdateSet => FeedUpdate(m, t)
    case UpdateField => FeedUpdate(m, t)
    case UpdateEquals => FeedUpdate(m, t)
    case UpdateValue => FeedUpdate(m, t)
    case AfterValue => FeedUpdate(m, t)
    case DeleteTable => FeedWhere(m, t)
    case Where => FeedWhere(m, t)
    case WhereField => FeedWhere(m, t)
    case WhereOperator => FeedWhere(m, t)
    case WhereValue => FeedWhere(m, t)
    case WhereAnd => FeedWhere(m, t)
    case _ => FeedInsert(m, t)
  }

  /** Which part of the automaton reads in a state. */
  lemma Families(m: Machine, t: Token)
    requires Ready(m) && t.raw != ""
    ensures m.state.SelectField? || m.state.AfterField? || m.state.Alias? || m.state.AfterAlias? || m.state.FromTable? ==>
              Feed(m, t) == FeedSelect(m, t)
    ensures m.state.InsertTable? || m.state.FieldsOpen? || m.state.InsertField? ==> Feed(m, t) == FeedInsert(m, t)
    ensures m.state.AfterInsertField? || m.state.ValuesWord? ==> Feed(m, t) == FeedInsert(m, t)
    ensures m.state.RowOpen? || InRows(m.state) ==> Feed(m, t) == FeedInsert(m, t)
    ensures InUpdate(m.state) ==> Feed(m, t) == FeedUpdate(m, t)
    ensures m.state.DeleteTable? || m.state.Where? || m.state.WhereField? ==> Feed(m, t) == FeedWhere(m, t)
    ensures m.state.WhereOperator? || m.state.WhereValue? || m.state.WhereAnd? ==> Feed(m, t) == FeedWhere(m, t)
  {
    hide FeedSelect, FeedInsert, FeedUpdate, FeedWhere;
  }

  /** The machine after all of s, if s splits into tokens that it accepts.  The text may
      end in any state but the one that waits for an alias. */
  function Accepts(m: Machine, s: string): Option<Machine>
    requires Ready(m)
    decreases |s|
  {
    if s == "" then (if m.state == Alias then None else Some(m))
    else
      var t := First(s);
      if t.raw == "" then None
      else
        var m' := Feed(m, t);
        if m'.None? then None else Accepts(m'.value, Behind(s))
  }

  /** The checks after parsing. */
  predicate Acceptable(m: Machine) {
    var q := m.query;
    && !(q.conditions == [] && m.state == WhereField)
    && q.typ != UnknownType && q.tableName != ""
    && (q.typ == Update || q.typ == Delete ==> q.conditions != [])
    && (forall c | c in q.conditions ::
          c.operator != UnknownOperator && (c.operand1IsField ==> c.operand1 != "") && (c.operand2IsField ==> c.operand2 != ""))
    && (q.typ == Insert ==> q.inserts != [] && forall row | row in q.inserts :: |row| == |q.fields|)
  }

  function Parsed(s: string): Option<Query> {
    var m := Accepts(Begin, s);
    if m.Some? && Acceptable(m.value) then Some(m.value.query) else None
  }

  // ---------- Nothing is skipped ----------

  /** The raw tokens of a text with the spaces behind each. */
  function Pieces(s: string): seq<string>
    decreases |s|
  {
    if s == "" || First(s).raw == "" then []
    else [s[..|s| - |Behind(s)|]] + Pieces(Behind(s))
  }

  function Concat(l: seq<string>): string {
    if l == [] then "" else l[0] + Concat(l[1..])
  }

  lemma {:induction false} DropSpacesIsSuffix(s: string)
    ensures var n := |s| - |DropSpaces(s)|; s[n..] == DropSpaces(s) && forall i | 0 <= i < n :: s[i] == ' '
  {
    if s != [] && s[0] == ' ' { DropSpacesIsSuffix(s[1..]); }
  }

  /** A piece is a token, followed by spaces only. */
  ghost predicate IsPiece(p: string) {
    exists n | 0 < n <= |p| :: IsToken(p[..n]) && forall i | n <= i < |p| :: p[i] == ' '
  }

  /** A reserved word in any case, a quoted string, or identifier characters. */
  ghost predicate IsToken(raw: string) {
    || Upper(raw) in Reserved()
    || (|raw| >= 2 && raw[0] == '\'' == raw[|raw|-1])
    || (raw != "" && forall i | 0 <= i < |raw| :: IsIdentChar(raw[i]))
  }

  lemma {:induction false} FirstWordIsReserved(s: string, words: seq<string>)
    ensures var w := FirstWord(s, words); w.Some? ==> w.value in words && StartsWith(s, w.value)
    ensures FirstWord(s, words).None? <==> forall w | w in words :: !StartsWith(s, w)
  {
    if words != [] {
      FirstWordIsReserved(s, words[1..]);
      assert forall w :: w in words <==> w == words[0] || w in words[1..];
    }
  }

  lemma {:induction false} IdentCharsOnly(s: string)
    ensures forall i | 0 <= i < IdentLength(s) :: IsIdentChar(s[i])
  {
    if s != [] && IsIdentChar(s[0]) {
      IdentCharsOnly(s[1..]);
      forall i | 0 <= i < IdentLength(s) ensures IsIdentChar(s[i]) { if i > 0 { assert s[i] == s[1..][i-1]; } }
    }
  }

  lemma {:induction false} QuoteCloses(s: string, i: nat)
    requires 1 <= i <= |s|
    ensures var end := ClosingQuote(s, i);
            && (end.Some? ==> s[end.value] == '\'' && s[end.value-1] != '\\')
            && forall k | i <= k < (if end.Some? then end.value else |s|) && s[k] == '\'' :: s[k-1] == '\\'
    decreases |s| - i
  {
    if i < |s| && !(s[i] == '\'' && s[i-1] != '\\') { QuoteCloses(s, i + 1); }
  }

  lemma FirstIsToken(s: string)
    requires First(s).raw != ""
    ensures IsToken(First(s).raw)
  {
    FirstWordIsReserved(s, Reserved());
    IdentCharsOnly(s);
    if s[0] == '\'' { QuoteCloses(s, 1); }
  }

  lemma FirstPiece(s: string)
    requires First(s).raw != ""
    ensures var n := |s| - |Behind(s)|; s == s[..n] + Behind(s) && IsPiece(s[..n])
  {
    hide First, IsToken;
    FirstIsToken(s);
    assert s[..|First(s).raw|] == First(s).raw;
    DropSpacesIsSuffix(s[|First(s).raw|..]);
    TokenAndSpaces(s, |First(s).raw|, |s| - |Behind(s)|);
  }

  lemma TokenAndSpaces(s: string, m: int, n: int)
    requires 0 < m <= n <= |s| && IsToken(s[..m]) && forall i | 0 <= i < n - m :: s[m..][i] == ' '
    ensures s == s[..n] + s[n..] && IsPiece(s[..n])
  {
    hide IsToken;
    var p := s[..n];
    assert p[..m] == s[..m];
    forall i | m <= i < |p| ensures p[i] == ' ' { assert s[m..][i - m] == ' '; }
  }

  /** A text that is accepted is the concatenation of tokens with spaces between them:
      no character of it was passed over. */
  lemma {:induction false} AcceptedTextIsTokens(m: Machine, s: string)
    requires Ready(m) && Accepts(m, s).Some?
    ensures Concat(Pieces(s)) == s && forall p | p in Pieces(s) :: IsPiece(p)
    decreases |s|
  {
    hide First, IsPiece, Feed, Ready, Behind;
    if s != "" {
      AcceptedTextIsTokens(Feed(m, First(s)).value, Behind(s));
      FirstPiece(s);
    }
  }

  // ---------- INSERT statements ----------

  /** Identifier characters, a letter among them, and no reserved word at the front. */
  ghost predicate IsName(s: string) {
    && (forall i | 0 <= i < |s| :: IsIdentChar(s[i]))
    && (exists i :: 0 <= i < |s| && IsLetter(s[i]))
    && forall w | w in Reserved() :: !StartsWith(s, w)
  }

  /** A backslash before every quote, and none at the end. */
  predicate IsValue(s: string) {
    && (forall i | 0 <= i < |s| && s[i] == '\'' :: i > 0 && s[i-1] == '\\')
    && (s != "" ==> s[|s|-1] != '\\')
  }

  function RenderNames(l: seq<string>): string
    requires l != []
  {
    l[0] + if |l| == 1 then "" else ", " + RenderNames(l[1..])
  }

  function RenderValues(l: seq<string>): string
    requires l != []
  {
    "'" + l[0] + "'" + if |l| == 1 then "" else ", " + RenderValues(l[1..])
  }

  function RenderRows(rows: seq<seq<string>>): string
    requires rows != [] && forall i | 0 <= i < |rows| :: rows[i] != []
  {
    "(" + RenderValues(rows[0]) + ")" + if |rows| == 1 then "" else ", " + RenderRows(rows[1..])
  }

  function RenderInsert(table: string, fields: seq<string>, rows: seq<seq<string>>): string
    requires fields != [] && rows != [] && forall i | 0 <= i < |rows| :: rows[i] != []
  {
    "INSERT INTO " + table + " (" + RenderNames(fields) + ") VALUES " + RenderRows(rows)
  }

  // -- the tokens of a rendering

  lemma Step(m: Machine, s: string, t: Token, rest: string, m': Machine)
    requires Ready(m) && s != "" && First(s) == t && t.raw != "" && Behind(s) == rest && Feed(m, t) == Some(m')
    ensures Accepts(m, s) == Accepts(m', rest)
  {}

  lemma StartsWithFirst(s: string, w: string)
    requires StartsWith(s, w) && w != ""
    ensures s != "" && w[0] == UpperChar(s[0])
  {
    assert Upper(s[..|w|])[0] == UpperChar(s[0]);
  }

  /** What tells the reserved words apart. */
  lemma ReservedShape(w: string)
    requires w in Reserved()
    ensures w != "" && w[0] != '\''
    ensures w[0] == '(' ==> w == "("
    ensures w[0] == ')' ==> w == ")"
    ensures w[0] == ',' ==> w == ","
    ensures w[0] == 'I' ==> w == "INSERT INTO"
    ensures w[0] == 'V' ==> w == "VALUES"
    ensures forall i | 1 <= i < |w| :: w[i] != ',' && w[i] != ')'
    ensures forall i | 1 <= i < |w| && w[i] == ' ' :: i + 1 < |w| && w[i+1] != '('
  {}

  lemma KeywordIsReserved(word: string)
    requires word == "(" || word == ")" || word == "," || word == "INSERT INTO" || word == "VALUES"
    ensures word in Reserved() && Upper(word) == word
  {}

  lemma KeywordToken(word: string, rest: string)
    requires word == "(" || word == ")" || word == "," || word == "INSERT INTO" || word == "VALUES"
    ensures First(word + rest) == Token(word, word, false)
    ensures (word + rest)[|word|..] == rest
  {
    hide Reserved, FirstWord, Upper;
    var s := word + rest;
    assert s[..|word|] == word;
    KeywordIsReserved(word);
    FirstWordIsReserved(s, Reserved());
    assert StartsWith(s, word);
    var w := FirstWord(s, Reserved()).value;
    ReservedShape(w);
    StartsWithFirst(s, w);
  }

  lemma {:induction false} IdentLengthOf(word: string, rest: string)
    requires forall i | 0 <= i < |word| :: IsIdentChar(word[i])
    requires rest != "" ==> !IsIdentChar(rest[0])
    ensures IdentLength(word + rest) == |word|
  {
    if word == "" {
      assert word + rest == rest;
    } else {
      assert (word + rest)[1..] == word[1..] + rest;
      IdentLengthOf(word[1..], rest);
    }
  }

  /** A name stays one token before a comma, a parenthesis, or a space and a parenthesis. */
  lemma NameToken(word: string, rest: string)
    requires IsName(word) && rest != ""
    requires rest[0] == ',' || rest[0] == ')' || (rest[0] == ' ' && |rest| >= 2 && rest[1] == '(')
    ensures First(word + rest) == Token(word, word, false) && word != "" && IsIdentifier(word)
    ensures (word + rest)[|word|..] == rest
  {
    hide Reserved, FirstWord, Upper, IdentLength;
    var s := word + rest;
    forall w | w in Reserved() ensures !StartsWith(s, w) { NotReservedHere(word, rest, w); }
    FirstWordIsReserved(s, Reserved());
    IdentLengthOf(word, rest);
    assert s[..|word|] == word;
    forall w | w in Reserved() ensures Upper(word) != w {
      assert !StartsWith(word, w);
      assert word[..|word|] == word;
    }
  }

  lemma NotReservedHere(word: string, rest: string, w: string)
    requires IsName(word) && rest != "" && w in Reserved()
    requires rest[0] == ',' || rest[0] == ')' || (rest[0] == ' ' && |rest| >= 2 && rest[1] == '(')
    ensures !StartsWith(word + rest, w)
  {
    hide Reserved, Upper;
    var s, n := word + rest, |word|;
    ReservedShape(w);
    assert !StartsWith(word, w) && n >= 1;
    if |w| <= n {
      assert s[..|w|] == word[..|w|];
    } else if |w| <= |s| {
      UpperAt(s[..|w|], n);
      if rest[0] == ' ' && w[n] == ' ' {
        assert n + 1 < |w|;
        UpperAt(s[..|w|], n + 1);
      }
    }
  }

  lemma UpperAt(s: string, i: int)
    requires 0 <= i < |s|
    ensures Upper(s)[i] == UpperChar(s[i])
  {}

  lemma {:induction false} ClosingQuoteOf(s: string, i: nat, end: nat)
    requires 1 <= i <= end < |s| && s[end] == '\'' && s[end-1] != '\\'
    requires forall k | i <= k < end && s[k] == '\'' :: s[k-1] == '\\'
    ensures ClosingQuote(s, i) == Some(end)
    decreases end - i
  {
    if i < end { ClosingQuoteOf(s, i + 1, end); }
  }

  lemma ValueToken(v: string, rest: string)
    requires IsValue(v)
    ensures First("'" + v + "'" + rest) == Token(v, "'" + v + "'", true)
    ensures ("'" + v + "'" + rest)[|v| + 2..] == rest
  {
    hide Reserved, FirstWord, StartsWith, ClosingQuote;
    var s := "'" + v + "'" + rest;
    forall w | w in Reserved() ensures !StartsWith(s, w) { NoQuoteReserved(s, w); }
    FirstWordIsReserved(s, Reserved());
    assert forall k | 1 <= k <= |v| :: s[k] == v[k-1];
    ClosingQuoteOf(s, 1, |v| + 1);
    assert s[1..|v| + 1] == v && s[..|v| + 2] == "'" + v + "'";
  }

  /** Nothing else between quotes is peeked whole. */
  lemma ValueIsExact(v: string, rest: string)
    requires First("'" + v + "'" + rest) == Token(v, "'" + v + "'", true)
    ensures IsValue(v)
  {
    hide Reserved, FirstWord, StartsWith, ClosingQuote;
    var s := "'" + v + "'" + rest;
    forall w | w in Reserved() ensures !StartsWith(s, w) { NoQuoteReserved(s, w); }
    FirstWordIsReserved(s, Reserved());
    QuoteCloses(s, 1);
    assert forall k | 1 <= k <= |v| :: s[k] == v[k-1];
  }

  lemma NoQuoteReserved(s: string, w: string)
    requires s != "" && s[0] == '\'' && w in Reserved()
    ensures !StartsWith(s, w)
  {
    hide Reserved, Upper;
    ReservedShape(w);
    if |w| <= |s| { UpperAt(s[..|w|], 0); }
  }

  // -- a rendering read from left to right

  lemma OneSpace(s: string)
    requires s != "" && s[0] != ' '
    ensures DropSpaces(s) == s && DropSpaces(" " + s) == s
  {
    assert (" " + s)[1..] == s;
  }

  /** The moves of the automaton over the fixed words of an INSERT statement. */
  predicate Moves(m: Machine, word: string, to: State) {
    match m.state
    case FieldsOpen => word == "(" && to == InsertField
    case AfterInsertField => (word == "," && to == InsertField) || (word == ")" && to == ValuesWord)
    case ValuesWord => word == "VALUES" && to == RowOpen
    case AfterInsertValue =>
      && m.query.inserts != []
      && ((word == "," && to == InsertValue)
          || (word == ")" && to == AfterRow && |m.query.inserts[|m.query.inserts|-1]| >= |m.query.fields|))
    case AfterRow => word == "," && to == RowOpen && m.query.inserts != []
    case _ => false
  }

  lemma MovesFeed(m: Machine, word: string, to: State)
    requires Moves(m, word, to)
    ensures Ready(m) && Feed(m, Token(word, word, false)) == Some(m.(state := to))
  {
    hide Reserved, Upper, IsIdentifier, FeedSelect, FeedUpdate, FeedWhere;
    KeywordIsReserved(word);
  }

  lemma WordStep(m: Machine, word: string, to: State, rest: string)
    requires Moves(m, word, to)
    ensures Ready(m) && Ready(m.(state := to)) && Accepts(m, word + rest) == Accepts(m.(state := to), DropSpaces(rest))
  {
    MovesFeed(m, word, to);
    KeywordToken(word, rest);
    hide First, Feed, Ready, Accepts;
    Step(m, word + rest, Token(word, word, false), DropSpaces(rest), m.(state := to));
  }

  lemma OpenStep(m: Machine, rest: string)
    requires m.state == RowOpen
    ensures Accepts(m, "(" + rest) ==
            Accepts(m.(state := InsertValue, query := m.query.(inserts := m.query.inserts + [[]])), DropSpaces(rest))
  {
    var m' := m.(state := InsertValue, query := m.query.(inserts := m.query.inserts + [[]]));
    KeywordToken("(", rest);
    assert Feed(m, Token("(", "(", false)) == Some(m');
    hide First, Feed, Ready, Accepts;
    Step(m, "(" + rest, Token("(", "(", false), DropSpaces(rest), m');
  }

  predicate EndsName(rest: string) {
    rest != "" && (rest[0] == ',' || rest[0] == ')' || (rest[0] == ' ' && |rest| >= 2 && rest[1] == '('))
  }

  lemma FieldStep(m: Machine, word: string, rest: string)
    requires m.state == InsertField && IsName(word) && EndsName(rest)
    ensures Accepts(m, word + rest) ==
            Accepts(m.(state := AfterInsertField, query := m.query.(fields := m.query.fields + [word])), DropSpaces(rest))
  {
    var m' := m.(state := AfterInsertField, query := m.query.(fields := m.query.fields + [word]));
    NameToken(word, rest);
    hide First, IsIdentifier, IsName, Accepts;
    assert Feed(m, Token(word, word, false)) == Some(m');
    hide Feed, Ready;
    Step(m, word + rest, Token(word, word, false), DropSpaces(rest), m');
  }

  lemma TableStep(m: Machine, word: string, rest: string)
    requires m.state == InsertTable && IsName(word) && EndsName(rest)
    ensures Accepts(m, word + rest) ==
            Accepts(m.(state := FieldsOpen, query := m.query.(tableName := word)), DropSpaces(rest))
  {
    var m' := m.(state := FieldsOpen, query := m.query.(tableName := word));
    NameToken(word, rest);
    hide First, IsIdentifier, IsName, Accepts;
    assert Feed(m, Token(word, word, false)) == Some(m');
    hide Feed, Ready;
    Step(m, word + rest, Token(word, word, false), DropSpaces(rest), m');
  }

  /** The last row with one more value. */
  function Appended(q: Query, v: string): Query
    requires q.inserts != []
  {
    q.(inserts := WithLast(q.inserts, q.inserts[|q.inserts|-1] + [v]))
  }

  lemma ValueStep(m: Machine, v: string, rest: string)
    requires m.state == InsertValue && m.query.inserts != [] && IsValue(v)
    ensures Accepts(m, "'" + v + "'" + rest) ==
            Accepts(m.(state := AfterInsertValue, query := Appended(m.query, v)), DropSpaces(rest))
  {
    var m' := m.(state := AfterInsertValue, query := Appended(m.query, v));
    ValueToken(v, rest);
    hide First, Accepts;
    assert Feed(m, Token(v, "'" + v + "'", true)) == Some(m');
    hide Feed, Ready;
    Step(m, "'" + v + "'" + rest, Token(v, "'" + v + "'", true), DropSpaces(rest), m');
  }

  lemma NameIsPlain(word: string)
    requires IsName(word)
    ensures word != "" && word[0] != ' '
  {
    assert IsIdentChar(word[0]);
  }

  /** A list of names and its closing parenthesis. */
  lemma {:induction false} NamesParse(m: Machine, l: seq<string>, rest: string)
    requires m.state == InsertField && l != [] && forall i | 0 <= i < |l| :: IsName(l[i])
    ensures Accepts(m, RenderNames(l) + ")" + rest) ==
            Accepts(m.(state := ValuesWord, query := m.query.(fields := m.query.fields + l)), DropSpaces(rest))
    decreases |l|
  {
    hide Accepts, IsName, Ready;
    var m1 := m.(state := AfterInsertField, query := m.query.(fields := m.query.fields + [l[0]]));
    if |l| == 1 {
      var tail := ")" + rest;
      assert RenderNames(l) + ")" + rest == l[0] + tail;
      FieldStep(m, l[0], tail);
      OneSpace(tail);
      WordStep(m1, ")", ValuesWord, rest);
      assert l == [l[0]];
    } else {
      var more := RenderNames(l[1..]) + ")" + rest;
      var tail := "," + (" " + more);
      assert RenderNames(l) + ")" + rest == l[0] + tail;
      FieldStep(m, l[0], tail);
      OneSpace(tail);
      WordStep(m1, ",", InsertField, " " + more);
      NameIsPlain(l[1]);
      OneSpace(more);
      NamesParse(m1.(state := InsertField), l[1..], rest);
      assert m1.query.fields + l[1..] == m.query.fields + l;
    }
  }

  /** The values l, added to the last row. */
  function AppendedAll(q: Query, l: seq<string>): Query
    requires q.inserts != []
  {
    q.(inserts := WithLast(q.inserts, q.inserts[|q.inserts|-1] + l))
  }

  /** A list of values and its closing parenthesis, in a row that they complete. */
  lemma {:induction false} ValuesParse(m: Machine, l: seq<string>, rest: string)
    requires m.state == InsertValue && m.query.inserts != [] && l != [] && forall i | 0 <= i < |l| :: IsValue(l[i])
    requires |m.query.inserts[|m.query.inserts|-1]| + |l| >= |m.query.fields|
    ensures Accepts(m, RenderValues(l) + ")" + rest) ==
            Accepts(m.(state := AfterRow, query := AppendedAll(m.query, l)), DropSpaces(rest))
    decreases |l|
  {
    hide Accepts, IsValue, Ready;
    var m1 := m.(state := AfterInsertValue, query := Appended(m.query, l[0]));
    if |l| == 1 {
      var tail := ")" + rest;
      assert RenderValues(l) + ")" + rest == "'" + l[0] + "'" + tail;
      ValueStep(m, l[0], tail);
      OneSpace(tail);
      WordStep(m1, ")", AfterRow, rest);
      assert l == [l[0]];
    } else {
      var more := RenderValues(l[1..]) + ")" + rest;
      var tail := "," + (" " + more);
      assert RenderValues(l) + ")" + rest == "'" + l[0] + "'" + tail;
      ValueStep(m, l[0], tail);
      OneSpace(tail);
      WordStep(m1, ",", InsertValue, " " + more);
      OneSpace(more);
      ValuesParse(m1.(state := InsertValue), l[1..], rest);
      AppendedOneByOne(m.query, l);
    }
  }

  lemma AppendedOneByOne(q: Query, l: seq<string>)
    requires q.inserts != [] && l != []
    ensures AppendedAll(Appended(q, l[0]), l[1..]) == AppendedAll(q, l)
  {
    var row := q.inserts[|q.inserts|-1];
    assert row + [l[0]] + l[1..] == row + l;
  }

  lemma FirstOfRow(q: Query, row: seq<string>)
    ensures AppendedAll(q.(inserts := q.inserts + [[]]), row) == q.(inserts := q.inserts + [row])
  {
    assert [] + row == row;
    assert WithLast(q.inserts + [[]], row) == q.inserts + [row];
  }

  lemma RowParse(m: Machine, row: seq<string>, rest: string)
    requires m.state == RowOpen && row != [] && |row| >= |m.query.fields| && forall j | 0 <= j < |row| :: IsValue(row[j])
    ensures Accepts(m, "(" + (RenderValues(row) + ")" + rest)) ==
            Accepts(m.(state := AfterRow, query := m.query.(inserts := m.query.inserts + [row])), DropSpaces(rest))
  {
    hide Accepts, IsValue, AppendedAll;
    var m1 := m.(state := InsertValue, query := m.query.(inserts := m.query.inserts + [[]]));
    var inner := RenderValues(row) + ")" + rest;
    OpenStep(m, inner);
    OneSpace(inner);
    ValuesParse(m1, row, rest);
    FirstOfRow(m.query, row);
  }

  lemma RowsSplit(rows: seq<seq<string>>)
    requires |rows| > 1 && forall i | 0 <= i < |rows| :: rows[i] != []
    ensures RenderRows(rows) == "(" + (RenderValues(rows[0]) + ")" + ("," + (" " + RenderRows(rows[1..]))))
    ensures RenderRows(rows[1..])[0] == '('
  {
    hide RenderValues;
    RowSplits(RenderValues(rows[0]), RenderRows(rows[1..]));
    FirstOfRows(rows[1..]);
  }

  lemma RowSplits(values: string, next: string)
    ensures "(" + values + ")" + (", " + next) == "(" + (values + ")" + ("," + (" " + next)))
  {
    assert ", " + next == "," + (" " + next);
  }

  lemma FirstOfRows(rows: seq<seq<string>>)
    requires rows != [] && forall i | 0 <= i < |rows| :: rows[i] != []
    ensures RenderRows(rows) != "" && RenderRows(rows)[0] == '('
  {
    hide RenderValues;
  }

  /** The rows up to the end of the text. */
  lemma {:induction false} RowsParse(m: Machine, rows: seq<seq<string>>)
    requires m.state == RowOpen && rows != []
    requires forall i | 0 <= i < |rows| :: rows[i] != [] && |rows[i]| >= |m.query.fields|
    requires forall i, j | 0 <= i < |rows| && 0 <= j < |rows[i]| :: IsValue(rows[i][j])
    ensures Accepts(m, RenderRows(rows)) == Some(m.(state := AfterRow, query := m.query.(inserts := m.query.inserts + rows)))
    decreases |rows|
  {
    hide Accepts, IsValue, Ready, RenderValues;
    var m2 := m.(state := AfterRow, query := m.query.(inserts := m.query.inserts + [rows[0]]));
    if |rows| == 1 {
      RowParse(m, rows[0], "");
      assert RenderRows(rows) == "(" + (RenderValues(rows[0]) + ")" + "");
      AcceptsEnd(m2);
      assert rows == [rows[0]];
    } else {
      var next := RenderRows(rows[1..]);
      RowsSplit(rows);
      hide RenderRows;
      RowParse(m, rows[0], "," + (" " + next));
      OneSpace("," + (" " + next));
      WordStep(m2, ",", RowOpen, " " + next);
      OneSpace(next);
      RowsParse(m2.(state := RowOpen), rows[1..]);
      assert m2.query.inserts + rows[1..] == m.query.inserts + rows;
    }
  }

  lemma AcceptsEnd(m: Machine)
    requires m.state == AfterRow && m.query.inserts != []
    ensures Ready(m) && Accepts(m, "") == Some(m)
  {}

  /** The statement up to the fields. */
  lemma HeadParse(table: string, names: string)
    requires IsName(table) && names != "" && names[0] != ' '
    ensures Accepts(Begin, "INSERT INTO" + (" " + (table + (" " + ("(" + names))))) ==
            Accepts(Begin.(state := InsertField, query := EmptyQuery.(typ := Insert, tableName := table)), names)
  {
    hide Accepts, IsName;
    var tail := " " + ("(" + names);
    InsertBegins(" " + (table + tail));
    NameIsPlain(table);
    OneSpace(table + tail);
    TableStep(Begin.(state := InsertTable, query := EmptyQuery.(typ := Insert)), table, tail);
    OneSpace("(" + names);
    WordStep(Begin.(state := FieldsOpen, query := EmptyQuery.(typ := Insert, tableName := table)), "(", InsertField, names);
    OneSpace(names);
  }

  /** The statement from the word VALUES on. */
  lemma TailParse(m: Machine, rows: seq<seq<string>>)
    requires m.state == ValuesWord && rows != []
    requires forall i | 0 <= i < |rows| :: rows[i] != [] && |rows[i]| >= |m.query.fields|
    requires forall i, j | 0 <= i < |rows| && 0 <= j < |rows[i]| :: IsValue(rows[i][j])
    ensures Accepts(m, DropSpaces(" VALUES " + RenderRows(rows))) ==
            Some(m.(state := AfterRow, query := m.query.(inserts := m.query.inserts + rows)))
  {
    hide Accepts, IsValue;
    var end := RenderRows(rows);
    assert " VALUES " + end == " " + ("VALUES" + (" " + end));
    OneSpace("VALUES" + (" " + end));
    WordStep(m, "VALUES", RowOpen, " " + end);
    OneSpace(end);
    RowsParse(m.(state := RowOpen), rows);
  }

  /** Every rendered INSERT statement parses back to its query: any table and fields that
      are names, any number of rows with a value for each field. */
  lemma InsertRoundTrip(table: string, fields: seq<string>, rows: seq<seq<string>>)
    requires IsName(table) && fields != [] && forall i | 0 <= i < |fields| :: IsName(fields[i])
    requires rows != [] && forall i | 0 <= i < |rows| :: |rows[i]| == |fields|
    requires forall i, j | 0 <= i < |rows| && 0 <= j < |rows[i]| :: IsValue(rows[i][j])
    ensures Parsed(RenderInsert(table, fields, rows)) ==
            Some(EmptyQuery.(typ := Insert, tableName := table, fields := fields, inserts := rows))
  {
    hide Accepts, IsName, IsValue, Ready, DropSpaces;
    NameIsPlain(table);
    NameIsPlain(fields[0]);
    var rest := " VALUES " + RenderRows(rows);
    var names := RenderNames(fields) + ")" + rest;
    InsertSplits(table, fields, rows);
    hide RenderInsert, RenderRows, RenderNames;
    HeadParse(table, names);
    var m3 := Begin.(state := InsertField, query := EmptyQuery.(typ := Insert, tableName := table));
    NamesParse(m3, fields, rest);
    assert [] + fields == fields;
    TailParse(m3.(state := ValuesWord, query := m3.query.(fields := fields)), rows);
    assert [] + rows == rows;
  }

  lemma InsertSplits(table: string, fields: seq<string>, rows: seq<seq<string>>)
    requires fields != [] && fields[0] != "" && rows != [] && forall i | 0 <= i < |rows| :: rows[i] != []
    ensures var names := RenderNames(fields) + ")" + (" VALUES " + RenderRows(rows));
            && RenderInsert(table, fields, rows) == "INSERT INTO" + (" " + (table + (" " + ("(" + names))))
            && names != "" && names[0] == fields[0][0]
  {
    NamesStart(fields);
    hide RenderRows, RenderNames;
    InsertText(table, RenderNames(fields), RenderRows(rows));
  }

  lemma NamesStart(l: seq<string>)
    requires l != [] && l[0] != ""
    ensures RenderNames(l) != "" && RenderNames(l)[0] == l[0][0]
  {}

  lemma InsertText(table: string, names: string, rows: string)
    ensures "INSERT INTO " + table + " (" + names + ") VALUES " + rows ==
            "INSERT INTO" + (" " + (table + (" " + ("(" + (names + ")" + (" VALUES " + rows))))))
  {
    assert names + ") VALUES " + rows == names + ")" + (" VALUES " + rows);
    assert " (" + (names + ") VALUES " + rows) == " " + ("(" + (names + ") VALUES " + rows));
    assert "INSERT INTO " + table == "INSERT INTO" + (" " + table);
  }

  lemma InsertBegins(rest: string)
    ensures Ready(Begin)
    ensures Accepts(Begin, "INSERT INTO" + rest) ==
            Accepts(Begin.(state := InsertTable, query := EmptyQuery.(typ := Insert)), DropSpaces(rest))
  {
    var m' := Begin.(state := InsertTable, query := EmptyQuery.(typ := Insert));
    KeywordToken("INSERT INTO", rest);
    KeywordIsReserved("INSERT INTO");
    assert Feed(Begin, Token("INSERT INTO", "INSERT INTO", false)) == Some(m');
    hide First, Feed, Ready, Accepts;
    Step(Begin, "INSERT INTO" + rest, Token("INSERT INTO", "INSERT INTO", false), DropSpaces(rest), m');
  }
}
