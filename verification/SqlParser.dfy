/** The hand-written SQL parser (pkg/sqlparser/sql.go): a loop over 26 steps that peeks
    and pops at a position of the text.  Each turn of the loop consumes at least one
    byte or ends it, and the outcome is that of the automaton in SqlGrammar. */
module SqlParser {
  import opened Options
  import opened SqlGrammar

  datatype Step =
    | StepType
    | StepSelectField | StepSelectFrom | StepSelectComma | StepSelectFromTable
    | StepInsertTable | StepInsertFieldsOpeningParens | StepInsertFields | StepInsertFieldsCommaOrClosingParens
    | StepInsertValuesOpeningParens | StepInsertValuesRWord | StepInsertValues
    | StepInsertValuesCommaOrClosingParens | StepInsertValuesCommaBeforeOpeningParens
    | StepUpdateTable | StepUpdateSet | StepUpdateField | StepUpdateEquals | StepUpdateValue | StepUpdateComma
    | StepDeleteFromTable
    | StepWhere | StepWhereField | StepWhereOperator | StepWhereValue | StepWhereAnd

  /** The state of the automaton that a step stands for. */
  function StateOf(step: Step): State {
    match step
    case StepType => Start
    case StepSelectField => SelectField
    case StepSelectFrom => AfterAlias
    case StepSelectComma => AfterAlias
    case StepSelectFromTable => FromTable
    case StepInsertTable => InsertTable
    case StepInsertFieldsOpeningParens => FieldsOpen
    case StepInsertFields => InsertField
    case StepInsertFieldsCommaOrClosingParens => AfterInsertField
    case StepInsertValuesRWord => ValuesWord
    case StepInsertValuesOpeningParens => RowOpen
    case StepInsertValues => InsertValue
    case StepInsertValuesCommaOrClosingParens => AfterInsertValue
    case StepInsertValuesCommaBeforeOpeningParens => AfterRow
    case StepUpdateTable => UpdateTable
    case StepUpdateSet => UpdateSet
    case StepUpdateField => UpdateField
    case StepUpdateEquals => UpdateEquals
    case StepUpdateValue => UpdateValue
    case StepUpdateComma => AfterValue
    case StepDeleteFromTable => DeleteTable
    case StepWhere => Where
    case StepWhereField => WhereField
    case StepWhereOperator => WhereOperator
    case StepWhereValue => WhereValue
    case StepWhereAnd => WhereAnd
  }

  /** The same query or the same refusal; the final state matters only to the checks. */
  predicate SameOutcome(a: Option<Machine>, b: Option<Machine>) {
    && (a.None? <==> b.None?)
    && (a.Some? ==> a.value.query == b.value.query && (a.value.state.WhereField? <==> b.value.state.WhereField?))
  }

  /** The next token decides. */
  lemma NextToken(m: Machine, s: string)
    requires Ready(m) && s != ""
    ensures Accepts(m, s) ==
            if First(s).raw == "" || Feed(m, First(s)).None? then None
            else Accepts(Feed(m, First(s)).value, Behind(s))
  {}

  lemma TextNeedsRaw(s: string)
    ensures First(s).raw == "" ==> First(s).text == "" && !First(s).quoted && !IsIdentifier(First(s).text)
  {
    if s != "" { FirstWordIsReserved(s, Reserved()); }
  }

  lemma QuotedIsFirst(s: string)
    requires s != ""
    ensures First(s).quoted <==> QuotedToken(s).raw != ""
    ensures First(s).quoted ==> First(s) == QuotedToken(s)
  {
    FirstWordIsReserved(s, Reserved());
    if s[0] == '\'' {
      forall w | w in Reserved() ensures !StartsWith(s, w) { NoQuoteReserved(s, w); }
    }
  }

  /** After a field, a token that is not AS is read as after an alias. */
  lemma NoAlias(q: Query, next: string, s: string)
    requires q.fields != [] && Upper(First(s).text) != "AS"
    ensures SameOutcome(Accepts(Machine(AfterField, q, next), s), Accepts(Machine(AfterAlias, q, next), s))
  {
    var a, b := Machine(AfterField, q, next), Machine(AfterAlias, q, next);
    if s == "" {
      AcceptsNothing(a);
      AcceptsNothing(b);
    } else {
      hide First, Accepts, Behind, Upper, Feed;
      NextToken(a, s);
      NextToken(b, s);
      if First(s).raw != "" {
        Families(a, First(s));
        Families(b, First(s));
      }
    }
  }

  lemma SliceOfRest(sql: string, i: nat, a: nat, b: nat)
    requires a <= b && i + b <= |sql|
    ensures sql[i..][a..b] == sql[i + a..i + b]
  {}

  lemma IdentLengthIs(s: string, n: nat)
    requires n <= |s| && (forall k | 0 <= k < n :: IsIdentChar(s[k])) && (n < |s| ==> !IsIdentChar(s[n]))
    ensures IdentLength(s) == n
  {
    assert s == s[..n] + s[n..];
    IdentLengthOf(s[..n], s[n..]);
  }

  lemma AsNeedsMore(q: Query, next: string, s: string)
    requires q.fields != [] && Upper(First(s).text) == "AS"
    ensures First(s).raw != "" && Accepts(Machine(AfterField, q, next), s) == Accepts(Machine(Alias, q, next), Behind(s))
  {
    TextNeedsRaw(s);
    NextToken(Machine(AfterField, q, next), s);
  }

  lemma AliasNeedsName(q: Query, next: string, s: string)
    requires q.fields != []
    ensures var t := First(s);
            if !IsIdentifier(t.text) then Accepts(Machine(Alias, q, next), s).None?
            else && t.raw != ""
                 && Accepts(Machine(Alias, q, next), s) ==
                    Accepts(Machine(AfterAlias, q.(aliases := q.aliases[q.fields[|q.fields|-1] := t.text]), next), Behind(s))
  {
    hide First, Accepts, Behind, Feed, IsIdentifier, Upper;
    TextNeedsRaw(s);
    var m := Machine(Alias, q, next);
    if s == "" {
      AliasNeedsText(m);
    } else {
      NextToken(m, s);
      if First(s).raw != "" { Families(m, First(s)); }
    }
  }

  class Parser {
    const sql: string
    var i: nat
    var step: Step
    var query: Query
    var nextUpdateField: string

    constructor (sql: string)
      ensures Valid() && this.sql == sql && Rest() == sql && Now() == Begin
    {
      this.sql, i, step, query, nextUpdateField := sql, 0, StepType, EmptyQuery, "";
    }

    ghost function Now(): Machine
      reads this
    {
      Machine(StateOf(step), query, nextUpdateField)
    }

    ghost function Rest(): string
      reads this
      requires i <= |sql|
    {
      sql[i..]
    }

    /** The slices and maps that the step will index are there. */
    ghost predicate Valid()
      reads this
    {
      && i <= |sql| && Ready(Now())
      && (step.StepSelectFrom? ==> Upper(First(Rest()).text) == "FROM")
      && (step.StepSelectComma? ==> Upper(First(Rest()).text) != "FROM")
      && (step.StepUpdateComma? ==> Upper(First(Rest()).text) != "WHERE")
    }

    // ---------- Peeking and popping ----------

    method PeekQuotedStringWithLength() returns (text: string, length: nat)
      requires i < |sql|
      ensures text == QuotedToken(Rest()).text && length == |QuotedToken(Rest()).raw|
      // up to the first quote that no backslash precedes
      ensures length > 0 ==>
                && sql[i] == '\'' && 2 <= length <= |sql| - i && text == sql[i+1..i+length-1]
                && sql[i+length-1] == '\'' && sql[i+length-2] != '\\'
                && forall k | i < k < i + length - 1 && sql[k] == '\'' :: sql[k-1] == '\\'
      ensures length == 0 ==>
                text == "" && (sql[i] == '\'' ==> forall k | i < k < |sql| && sql[k] == '\'' :: sql[k-1] == '\\')
    {
      if sql[i] != '\'' { return "", 0; }
      ghost var s := Rest();
      var j := i + 1;
      while j < |sql|
        invariant i < j <= |sql| && ClosingQuote(s, 1) == ClosingQuote(s, j - i)
        invariant forall k | i < k < j && sql[k] == '\'' :: sql[k-1] == '\\'
      {
        if sql[j] == '\'' && sql[j-1] != '\\' {
          SliceOfRest(sql, i, 1, j - i);
          return sql[i+1..j], |sql[i+1..j]| + 2;
        }
        j := j + 1;
      }
      return "", 0;
    }

    method PeekIdentifierWithLength() returns (text: string, length: nat)
      requires i <= |sql|
      ensures text == Rest()[..IdentLength(Rest())] && length == IdentLength(Rest())
      // the longest run of identifier characters
      ensures length <= |Rest()|
      ensures forall k | 0 <= k < length ::
                var c := Rest()[k]; 'a' <= c <= 'z' || 'A' <= c <= 'Z' || '0' <= c <= '9' || c in "_*."
      ensures length < |Rest()| ==>
                var c := Rest()[length]; !('a' <= c <= 'z' || 'A' <= c <= 'Z' || '0' <= c <= '9' || c in "_*.")
    {
      hide IdentLength;
      ghost var s := Rest();
      var j := i;
      while j < |sql|
        invariant i <= j <= |sql| && forall k | 0 <= k < j - i :: IsIdentChar(s[k])
      {
        assert s[j - i] == sql[j];
        if !IsIdentChar(sql[j]) {
          IdentLengthIs(s, j - i);
          SliceOfRest(sql, i, 0, j - i);
          return sql[i..j], |sql[i..j]|;
        }
        j := j + 1;
      }
      IdentLengthIs(s, j - i);
      SliceOfRest(sql, i, 0, j - i);
      return sql[i..], |sql[i..]|;
    }

    method PeekWithLength() returns (text: string, length: nat)
      requires i <= |sql|
      ensures text == First(Rest()).text && length == |First(Rest()).raw|
    {
      hide Reserved, Upper, QuotedToken, IdentLength;
      if i >= |sql| { return "", 0; }
      ghost var s := Rest();
      var words := Reserved();
      for k := 0 to |words|
        invariant FirstWord(s, words) == FirstWord(s, words[k..])
      {
        var word := words[k];
        var end := if |sql| < i + |word| then |sql| else i + |word|;
        var token := Upper(sql[i..end]);
        assert sql[i..end] == s[..end - i];
        assert words[k..][0] == word && words[k..][1..] == words[k+1..];
        if token == word { return token, |token|; }
      }
      if sql[i] == '\'' {
        text, length := PeekQuotedStringWithLength();
      } else {
        text, length := PeekIdentifierWithLength();
      }
    }

    method Peek() returns (text: string)
      requires i <= |sql|
      ensures text == First(Rest()).text
    {
      var length;
      text, length := PeekWithLength();
    }

    method Pop() returns (text: string)
      requires i <= |sql|
      modifies this`i
      ensures old(i) <= i <= |sql| && Rest() == Behind(old(Rest()))
      ensures First(old(Rest())).raw != "" ==> i > old(i)
      ensures i < |sql| ==> sql[i] != ' '
    {
      var length;
      text, length := PeekWithLength();
      assert Rest()[length..] == sql[i + length..];
      i := i + length;
      PopWhitespace();
    }

    method PopWhitespace()
      requires i <= |sql|
      modifies this`i
      ensures old(i) <= i <= |sql| && Rest() == DropSpaces(old(Rest()))
      ensures (i < |sql| ==> sql[i] != ' ') && forall k | old(i) <= k < i :: sql[k] == ' '
    {
      while i < |sql| && sql[i] == ' '
        invariant old(i) <= i <= |sql| && DropSpaces(old(Rest())) == DropSpaces(Rest())
        invariant forall k | old(i) <= k < i :: sql[k] == ' '
        decreases |sql| - i
      {
        assert Rest()[1..] == sql[i+1..];
        i := i + 1;
      }
    }

    // ---------- The steps ----------

    /** A turn of the loop consumes something and leaves the outcome as it was, or the text is refused. */
    twostate predicate Progress(ok: bool)
      reads this
      requires old(Valid())
    {
      if ok then Valid() && i > old(i) && SameOutcome(old(Accepts(Now(), Rest())), Accepts(Now(), Rest()))
      else i <= |sql| && old(Accepts(Now(), Rest())).None?
    }

    /** Pops the token and goes on with the given step, query and field. */
    method Advance(step': Step, query': Query, next': string) returns (ok: bool)
      requires Valid() && i < |sql| && First(Rest()).raw != ""
      requires !step'.StepSelectFrom? && !step'.StepSelectComma? && !step'.StepUpdateComma?
      requires Feed(Now(), First(Rest())) == Some(Machine(StateOf(step'), query', next'))
      modifies this
      ensures ok && Progress(true)
    {
      hide First, Behind, Accepts, Feed, Ready, StateOf;
      NextToken(Now(), Rest());
      query, nextUpdateField := query', next';
      var _ := Pop();
      step := step';
      return true;
    }

    method TypeStep() returns (ok: bool)
      requires Valid() && i < |sql| && step.StepType?
      modifies this
      ensures Progress(ok)
    {
      hide SameOutcome, Ready, Reserved, First, Behind, Accepts, IsIdentifier, Upper;
      ghost var s := Rest();
      NextToken(Now(), s);
      TextNeedsRaw(s);
      var word := Peek();
      var kind := Upper(word);
      if kind == "SELECT" {
        ok := Advance(StepSelectField, query.(typ := Select), nextUpdateField);
      } else if kind == "INSERT INTO" {
        ok := Advance(StepInsertTable, query.(typ := Insert), nextUpdateField);
      } else if kind == "UPDATE" {
        ok := Advance(StepUpdateTable, query.(typ := Update, updates := Some(map[])), nextUpdateField);
      } else if kind == "DELETE FROM" {
        ok := Advance(StepDeleteFromTable, query.(typ := Delete), nextUpdateField);
      } else {
        return false;
      }
    }

    method SelectFieldStep() returns (ok: bool)
      requires Valid() && i < |sql| && step.StepSelectField?
      modifies this
      ensures Progress(ok)
    {
      hide First, Behind, Accepts, IsIdentifier, Upper, Feed, FeedInsert, FeedUpdate, FeedWhere;
      ghost var s := Rest();
      NextToken(Now(), s);
      TextNeedsRaw(s);
      if First(s).raw != "" { Families(Now(), First(s)); }
      var identifier := Peek();
      if !(IsIdentifier(identifier) || identifier == "*") { return false; }
      query := query.(fields := query.fields + [identifier]);
      var _ := Pop();
      assert old(Accepts(Now(), Rest())) == Accepts(Machine(AfterField, query, nextUpdateField), Rest());
      ok := AliasOrFrom(identifier);
    }

    /** The rest of the turn: an alias if there is one, and a look at what follows. */
    method AliasOrFrom(identifier: string) returns (ok: bool)
      requires i <= |sql| && query.fields != [] && query.fields[|query.fields|-1] == identifier
      modifies this
      ensures old(i) <= i <= |sql| && (ok ==> Valid())
      ensures var m := Accepts(Machine(AfterField, old(query), old(nextUpdateField)), old(Rest()));
              if ok then SameOutcome(m, Accepts(Now(), Rest())) else m.None?
    {
      hide First, Behind, Accepts, IsIdentifier, Upper;
      var maybeFrom := Peek();
      if Upper(maybeFrom) == "AS" {
        AsNeedsMore(query, nextUpdateField, Rest());
        var _ := Pop();
        AliasNeedsName(query, nextUpdateField, Rest());
        var alias := Peek();
        if !IsIdentifier(alias) { return false; }
        query := query.(aliases := query.aliases[identifier := alias]);
        var _ := Pop();
        maybeFrom := Peek();
      } else {
        NoAlias(query, nextUpdateField, Rest());
      }
      step := if Upper(maybeFrom) == "FROM" then StepSelectFrom else StepSelectComma;
      return true;
    }

    method SelectStep() returns (ok: bool)
      requires Valid() && i < |sql| && (step.StepSelectFrom? || step.StepSelectComma? || step.StepSelectFromTable?)
      modifies this
      ensures Progress(ok)
    {
      hide SameOutcome, Ready, Reserved, First, Behind, Accepts, IsIdentifier, Upper, Feed,
        FeedInsert, FeedUpdate, FeedWhere;
      ghost var s := Rest();
      NextToken(Now(), s);
      TextNeedsRaw(s);
      if First(s).raw != "" { Families(Now(), First(s)); }
      var word := Peek();
      match step {
      case StepSelectComma =>
        if word != "," { return false; }
        ok := Advance(StepSelectField, query, nextUpdateField);
      case StepSelectFrom =>
        if Upper(word) != "FROM" { return false; }
        ok := Advance(StepSelectFromTable, query, nextUpdateField);
      case StepSelectFromTable =>
        if |word| == 0 { return false; }
        ok := Advance(StepWhere, query.(tableName := word), nextUpdateField);
      }
    }

    method InsertHeadStep() returns (ok: bool)
      requires Valid() && i < |sql| && (step.StepInsertTable? || step.StepInsertFieldsOpeningParens? || step.StepInsertFields?
        || step.StepInsertFieldsCommaOrClosingParens? || step.StepInsertValuesRWord?)
      modifies this
      ensures Progress(ok)
    {
      hide SameOutcome, Ready, Reserved, First, Behind, Accepts, IsIdentifier, Upper, Feed,
        FeedSelect, FeedUpdate, FeedWhere;
      ghost var s := Rest();
      NextToken(Now(), s);
      TextNeedsRaw(s);
      if First(s).raw != "" { Families(Now(), First(s)); }
      var word := Peek();
      match step {
      case StepInsertTable =>
        if |word| == 0 { return false; }
        ok := Advance(StepInsertFieldsOpeningParens, query.(tableName := word), nextUpdateField);
      case StepInsertFieldsOpeningParens =>
        if |word| != 1 || word != "(" { return false; }
        ok := Advance(StepInsertFields, query, nextUpdateField);
      case StepInsertFields =>
        if !IsIdentifier(word) { return false; }
        ok := Advance(StepInsertFieldsCommaOrClosingParens, query.(fields := query.fields + [word]), nextUpdateField);
      case StepInsertFieldsCommaOrClosingParens =>
        if word != "," && word != ")" { return false; }
        ok := Advance(if word == "," then StepInsertFields else StepInsertValuesRWord, query, nextUpdateField);
      case StepInsertValuesRWord =>
        if Upper(word) != "VALUES" { return false; }
        ok := Advance(StepInsertValuesOpeningParens, query, nextUpdateField);
      }
    }

    method InsertRowStep() returns (ok: bool)
      requires Valid() && i < |sql| && (step.StepInsertValuesOpeningParens? || step.StepInsertValues?
        || step.StepInsertValuesCommaOrClosingParens? || step.StepInsertValuesCommaBeforeOpeningParens?)
      modifies this
      ensures Progress(ok)
    {
      hide SameOutcome, Reserved, QuotedToken, First, Behind, Accepts, IsIdentifier, Upper, Feed,
        FeedSelect, FeedUpdate, FeedWhere;
      ghost var s := Rest();
      NextToken(Now(), s);
      TextNeedsRaw(s);
      if First(s).raw != "" { Families(Now(), First(s)); }
      QuotedIsFirst(s);
      match step {
      case StepInsertValuesOpeningParens =>
        var word := Peek();
        if word != "(" { return false; }
        ok := Advance(StepInsertValues, query.(inserts := query.inserts + [[]]), nextUpdateField);
      case StepInsertValues =>
        var quotedValue, ln := PeekQuotedStringWithLength();
        if ln == 0 { return false; }
        var last := |query.inserts| - 1;
        ok := Advance(StepInsertValuesCommaOrClosingParens,
                      query.(inserts := query.inserts[last := query.inserts[last] + [quotedValue]]), nextUpdateField);
      case StepInsertValuesCommaOrClosingParens =>
        var word := Peek();
        if word != "," && word != ")" { return false; }
        if word == "," { ok := Advance(StepInsertValues, query, nextUpdateField); return; }
        var currentInsertRow := query.inserts[|query.inserts|-1];
        if |currentInsertRow| < |query.fields| {
          var _ := Pop();
          return false;
        }
        ok := Advance(StepInsertValuesCommaBeforeOpeningParens, query, nextUpdateField);
      case StepInsertValuesCommaBeforeOpeningParens =>
        var word := Peek();
        if Upper(word) != "," { return false; }
        ok := Advance(StepInsertValuesOpeningParens, query, nextUpdateField);
      }
    }

    method UpdateStep() returns (ok: bool)
      requires Valid() && i < |sql| && (step.StepUpdateTable? || step.StepUpdateSet? || step.StepUpdateField?
        || step.StepUpdateEquals? || step.StepUpdateComma?)
      modifies this
      ensures Progress(ok)
    {
      hide SameOutcome, OperatorOf, WithLast, InRows, Ready, Reserved, First, Behind, Accepts,
        IsIdentifier, Upper, Feed, FeedSelect, FeedInsert, FeedWhere;
      ghost var s := Rest();
      NextToken(Now(), s);
      TextNeedsRaw(s);
      if First(s).raw != "" { Families(Now(), First(s)); }
      var word := Peek();
      match step {
      case StepUpdateTable =>
        if |word| == 0 { return false; }
        ok := Advance(StepUpdateSet, query.(tableName := word), nextUpdateField);
      case StepUpdateSet =>
        if word != "SET" { return false; }
        ok := Advance(StepUpdateField, query, nextUpdateField);
      case StepUpdateField =>
        if !IsIdentifier(word) { return false; }
        ok := Advance(StepUpdateEquals, query, word);
      case StepUpdateEquals =>
        if word != "=" { return false; }
        ok := Advance(StepUpdateValue, query, nextUpdateField);
      case StepUpdateComma =>
        if word != "," { return false; }
        ok := Advance(StepUpdateField, query, nextUpdateField);
      }
    }

    method UpdateValueStep() returns (ok: bool)
      requires Valid() && i < |sql| && step.StepUpdateValue?
      modifies this
      ensures Progress(ok)
    {
      hide Accepts, First, Ready;
      ok := StoreValue();
      if ok { WhereOrComma(); }
    }

    /** The quoted value of the field. */
    method StoreValue() returns (ok: bool)
      requires Valid() && i < |sql| && step.StepUpdateValue?
      modifies this
      ensures old(i) <= i <= |sql|
      ensures ok ==>
                && i > old(i) && query.updates.Some?
                && old(Accepts(Now(), Rest())) == Accepts(Machine(AfterValue, query, nextUpdateField), Rest())
      ensures !ok ==> old(Accepts(Now(), Rest())).None?
    {
      hide Reserved, QuotedToken, WithLast, OperatorOf, First, Behind, Accepts, IsIdentifier, Upper, Feed,
        FeedSelect, FeedInsert, FeedWhere;
      ghost var s := Rest();
      NextToken(Now(), s);
      TextNeedsRaw(s);
      if First(s).raw != "" { Families(Now(), First(s)); }
      QuotedIsFirst(s);
      var quotedValue, ln := PeekQuotedStringWithLength();
      if ln == 0 { return false; }
      query := query.(updates := Some(query.updates.value[nextUpdateField := quotedValue]));
      nextUpdateField := "";
      var _ := Pop();
      return true;
    }

    /** The rest of the turn: a look at what follows the value. */
    method WhereOrComma()
      requires i <= |sql| && query.updates.Some?
      modifies this`step
      ensures Valid() && Accepts(Machine(AfterValue, query, nextUpdateField), Rest()) == Accepts(Now(), Rest())
    {
      hide First, Accepts, Upper;
      var maybeWhere := Peek();
      if Upper(maybeWhere) == "WHERE" { ValueThenWhere(query, nextUpdateField, Rest()); }
      step := if Upper(maybeWhere) == "WHERE" then StepWhere else StepUpdateComma;
    }

    method WhereStep() returns (ok: bool)
      requires Valid() && i < |sql| && (step.StepDeleteFromTable? || step.StepWhere?
        || step.StepWhereField? || step.StepWhereAnd?)
      modifies this
      ensures Progress(ok)
    {
      hide SameOutcome, OperatorOf, WithLast, InUpdate, InRows, Ready, Reserved, First, Behind,
        Accepts, IsIdentifier, Upper, Feed, FeedSelect, FeedInsert, FeedUpdate;
      ghost var s := Rest();
      NextToken(Now(), s);
      TextNeedsRaw(s);
      if First(s).raw != "" { Families(Now(), First(s)); }
      var word := Peek();
      match step {
      case StepDeleteFromTable =>
        if |word| == 0 { return false; }
        ok := Advance(StepWhere, query.(tableName := word), nextUpdateField);
      case StepWhere =>
        if Upper(word) != "WHERE" { return false; }
        ok := Advance(StepWhereField, query, nextUpdateField);
      case StepWhereField =>
        if !IsIdentifier(word) { return false; }
        var condition := Condition(word, true, UnknownOperator, "", false);
        ok := Advance(StepWhereOperator, query.(conditions := query.conditions + [condition]), nextUpdateField);
      case StepWhereAnd =>
        if Upper(word) != "AND" { return false; }
        ok := Advance(StepWhereField, query, nextUpdateField);
      }
    }

    method OperatorStep() returns (ok: bool)
      requires Valid() && i < |sql| && step.StepWhereOperator?
      modifies this
      ensures Progress(ok)
    {
      hide SameOutcome, Reserved, QuotedToken, First, Behind, Accepts, IsIdentifier, Upper, Feed,
        FeedSelect, FeedInsert, FeedUpdate;
      ghost var s := Rest();
      NextToken(Now(), s);
      TextNeedsRaw(s);
      if First(s).raw != "" { Families(Now(), First(s)); }
      var operator := Peek();
      var last := |query.conditions| - 1;
      var op := OperatorOf(operator);
      if op.None? { return false; }
      var currentCondition := query.conditions[last].(operator := op.value);
      ok := Advance(StepWhereValue, query.(conditions := query.conditions[last := currentCondition]), nextUpdateField);
    }

    method OperandStep() returns (ok: bool)
      requires Valid() && i < |sql| && step.StepWhereValue?
      modifies this
      ensures Progress(ok)
    {
      hide SameOutcome, Reserved, QuotedToken, First, Behind, Accepts, IsIdentifier, Upper, Feed,
        FeedSelect, FeedInsert, FeedUpdate;
      ghost var s := Rest();
      NextToken(Now(), s);
      TextNeedsRaw(s);
      if First(s).raw != "" { Families(Now(), First(s)); }
      QuotedIsFirst(s);
      var last := |query.conditions| - 1;
      var currentCondition := query.conditions[last];
      var identifier := Peek();
      if IsIdentifier(identifier) {
        currentCondition := currentCondition.(operand2 := identifier, operand2IsField := true);
      } else {
        var quotedValue, ln := PeekQuotedStringWithLength();
        if ln == 0 { return false; }
        currentCondition := currentCondition.(operand2 := quotedValue, operand2IsField := false);
      }
      ok := Advance(StepWhereAnd, query.(conditions := query.conditions[last := currentCondition]), nextUpdateField);
    }

    /** The loop.  It ends because every turn that goes on has moved the position. */
    method DoParse() returns (ok: bool)
      requires Valid()
      modifies this
      ensures i <= |sql|
      ensures var m := old(Accepts(Now(), Rest()));
              if ok then i == |sql| && SameOutcome(m, Some(Now())) else m.None?
    {
      hide First, Accepts, Ready;
      while true
        invariant Valid() && SameOutcome(old(Accepts(Now(), Rest())), Accepts(Now(), Rest()))
        decreases |sql| - i
      {
        if i >= |sql| {
          assert Rest() == "";
          AcceptsNothing(Now());
          return true;
        }
        match step {
        case StepType => ok := TypeStep();
        case StepSelectField => ok := SelectFieldStep();
        case StepSelectFrom => ok := SelectStep();
        case StepSelectComma => ok := SelectStep();
        case StepSelectFromTable => ok := SelectStep();
        case StepInsertValuesOpeningParens => ok := InsertRowStep();
        case StepInsertValues => ok := InsertRowStep();
        case StepInsertValuesCommaOrClosingParens => ok := InsertRowStep();
        case StepInsertValuesCommaBeforeOpeningParens => ok := InsertRowStep();
        case StepUpdateValue => ok := UpdateValueStep();
        case StepUpdateTable => ok := UpdateStep();
        case StepUpdateSet => ok := UpdateStep();
        case StepUpdateField => ok := UpdateStep();
        case StepUpdateEquals => ok := UpdateStep();
        case StepUpdateComma => ok := UpdateStep();
        case StepWhereOperator => ok := OperatorStep();
        case StepWhereValue => ok := OperandStep();
        case StepDeleteFromTable => ok := WhereStep();
        case StepWhere => ok := WhereStep();
        case StepWhereField => ok := WhereStep();
        case StepWhereAnd => ok := WhereStep();
        case _ => ok := InsertHeadStep();
        }
        if !ok { return false; }
      }
    }

    method Validate() returns (ok: bool)
      ensures ok <==> Acceptable(Now())
      ensures ok <==>
                && (query.conditions == [] ==> !step.StepWhereField?)
                && query.typ != UnknownType && query.tableName != ""
                && (query.typ == Update || query.typ == Delete ==> query.conditions != [])
                && (forall c | c in query.conditions :: c.operator != UnknownOperator
                     && (c.operand1 == "" ==> !c.operand1IsField) && (c.operand2 == "" ==> !c.operand2IsField))
                && (query.typ == Insert ==> query.inserts != [] && forall row | row in query.inserts :: |row| == |query.fields|)
    {
      if |query.conditions| == 0 && step.StepWhereField? { return false; }
      if query.typ.UnknownType? { return false; }
      if query.tableName == "" { return false; }
      if |query.conditions| == 0 && (query.typ.Update? || query.typ.Delete?) { return false; }
      for k := 0 to |query.conditions|
        invariant forall c | c in query.conditions[..k] ::
          c.operator != UnknownOperator && (c.operand1IsField ==> c.operand1 != "") && (c.operand2IsField ==> c.operand2 != "")
      {
        var c := query.conditions[k];
        assert c in query.conditions;
        if c.operator.UnknownOperator? { return false; }
        if c.operand1 == "" && c.operand1IsField { return false; }
        if c.operand2 == "" && c.operand2IsField { return false; }
      }
      assert query.conditions[..|query.conditions|] == query.conditions;
      if query.typ.Insert? && |query.inserts| == 0 { return false; }
      if query.typ.Insert? {
        for k := 0 to |query.inserts|
          invariant forall row | row in query.inserts[..k] :: |row| == |query.fields|
        {
          assert query.inserts[k] in query.inserts;
          if |query.inserts[k]| != |query.fields| { return false; }
        }
        assert query.inserts[..|query.inserts|] == query.inserts;
      }
      return true;
    }
  }

  lemma AliasNeedsText(m: Machine)
    requires Ready(m) && m.state == Alias
    ensures Accepts(m, "").None? && First("") == NoToken && !IsIdentifier("")
  {}

  lemma AcceptsNothing(m: Machine)
    requires Ready(m) && m.state != Alias
    ensures Accepts(m, "") == Some(m)
  {}

  lemma UpperOfNothing()
    ensures Upper("") == ""
  {}

  /** After a value, WHERE is read as where it is expected. */
  lemma ValueThenWhere(q: Query, next: string, s: string)
    requires q.updates.Some? && Upper(First(s).text) == "WHERE"
    ensures Accepts(Machine(AfterValue, q, next), s) == Accepts(Machine(Where, q, next), s)
  {
    hide First, Accepts, Behind, Upper, Feed, IsIdentifier;
    var a, b := Machine(AfterValue, q, next), Machine(Where, q, next);
    TextNeedsRaw(s);
    UpperOfNothing();
    NextToken(a, s);
    NextToken(b, s);
    Families(a, First(s));
    Families(b, First(s));
  }

  /** Parsing a text: the query that the automaton builds, when it passes the checks. */
  method Parse(sql: string) returns (r: Option<Query>)
    ensures r == Parsed(sql)
    ensures r.Some? ==> r.value.typ != UnknownType && r.value.tableName != ""
    ensures r.Some? && (r.value.typ == Update || r.value.typ == Delete) ==> r.value.conditions != []
    ensures r.Some? ==> forall c | c in r.value.conditions :: c.operator != UnknownOperator
    ensures r.Some? && r.value.typ == Insert ==>
              r.value.inserts != [] && forall row | row in r.value.inserts :: |row| == |r.value.fields|
  {
    hide Accepts;
    var p := new Parser(sql);
    var ok := p.DoParse();
    if !ok { return None; }
    SameChecks(Accepts(Begin, sql).value, p.Now());
    ok := p.Validate();
    return if ok then Some(p.query) else None;
  }

  lemma SameChecks(a: Machine, b: Machine)
    requires SameOutcome(Some(a), Some(b))
    ensures Acceptable(a) <==> Acceptable(b)
  {}
}
