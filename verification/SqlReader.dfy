/**
 * Reading finished statements back. The reader knows the grammar of sections 7 and 13 of SQL-92, with the paging clauses,
 * OUTPUT and RETURNING of the two vendors: a statement is a run of clauses, each headed by a reserved word, and
 * whatever stands in parentheses belongs to the clause around it. Expressions are left as the tokens they consist of.
 */
module SqlReader {
  import opened Values
  import opened SqlLexer
  import opened SqlStatements
  import Decimal

  // ---------------------------------------------------------------------------------------------
  // Clauses and lists
  // ---------------------------------------------------------------------------------------------

  /** The reserved words that head a clause. */
  predicate IsHead(w: string) {
    || w == "WITH" || w == "SELECT" || w == "FROM" || w == "WHERE" || w == "GROUP" || w == "HAVING" || w == "ORDER"
    || w == "LIMIT" || w == "OFFSET" || w == "FETCH" || w == "UNION" || w == "INTERSECT" || w == "EXCEPT"
    || w == "INNER" || w == "LEFT" || w == "ON" || w == "UPDATE" || w == "SET"
    || w == "INSERT" || w == "OUTPUT" || w == "DEFAULT" || w == "VALUES" || w == "RETURNING"
  }

  /** What ends a clause, or an element of a list, outside parentheses. */
  predicate Stops(t: Token, list: bool) { t == Sign(')') || (t.Word? && IsHead(t.text)) || (list && t == Sign(',')) }

  function Deeper(t: Token, depth: nat): nat
    requires depth > 0 || t != Sign(')')
  {
    if t == Sign('(') then depth + 1 else if t == Sign(')') then depth - 1 else depth
  }

  /** How many tokens stand before the first one that stops, beginning inside `depth` parentheses. */
  function Run(ts: seq<Token>, depth: nat, list: bool): (n: nat)
    ensures n <= |ts|
  {
    if ts == [] || (depth == 0 && Stops(ts[0], list)) then 0 else 1 + Run(ts[1..], Deeper(ts[0], depth), list)
  }

  datatype Section = Section(head: string, body: seq<Token>)

  /** A statement cut into its clauses. */
  function Sections(ts: seq<Token>): Option<seq<Section>> {
    if ts == [] then Some([])
    else if ts[0].Word? && IsHead(ts[0].text) then
      var n := Run(ts[1..], 0, false);
      match Sections(ts[1..][n..])
      case None => None
      case Some(rest) => Some([Section(ts[0].text, ts[1..][..n])] + rest)
    else None
  }

  /** The elements of a list, which commas outside parentheses separate. */
  function SplitCommas(ts: seq<Token>): seq<seq<Token>> {
    var n := Run(ts, 0, true);
    if n < |ts| && ts[n] == Sign(',') then [ts[..n]] + SplitCommas(ts[n + 1..]) else [ts]
  }

  // ---------------------------------------------------------------------------------------------
  // The grammar of statements
  // ---------------------------------------------------------------------------------------------

  /** The body of the clause with this head, if it comes next, and the clauses after it. */
  function Take(ss: seq<Section>, head: string): (Option<seq<Token>>, seq<Section>) {
    if ss != [] && ss[0].head == head then (Some(ss[0].body), ss[1..]) else (None, ss)
  }

  /** The rows a query specification takes, and their columns; no columns stand for all of them. */
  datatype Source = Source(distinct: bool, columns: seq<string>, table: string, where: Option<seq<Token>>)

  function ReadDistinct(ts: seq<Token>): (bool, seq<Token>) {
    if ts != [] && ts[0] == Word("DISTINCT") then (true, ts[1..]) else (false, ts)
  }

  function NamesOf(parts: seq<seq<Token>>): Option<seq<string>> {
    if parts == [] then Some([])
    else if |parts[0]| == 1 && parts[0][0].Name? then
      match NamesOf(parts[1..])
      case None => None
      case Some(names) => Some([parts[0][0].id] + names)
    else None
  }

  function ReadColumns(ts: seq<Token>): Option<seq<string>> {
    if ts == [Sign('*')] then Some([]) else NamesOf(SplitCommas(ts))
  }

  function ReadName(ts: seq<Token>): Option<string> { if |ts| == 1 && ts[0].Name? then Some(ts[0].id) else None }

  function ReadSource(ss: seq<Section>): Option<(Source, seq<Section>)> {
    var (selected, r1) := Take(ss, "SELECT");
    var (from, r2) := Take(r1, "FROM");
    var (where, r3) := Take(r2, "WHERE");
    if selected == None || from == None then None
    else
      var (distinct, list) := ReadDistinct(selected.value);
      var columns, table := ReadColumns(list), ReadName(from.value);
      if columns == None || table == None then None
      else Some((Source(distinct, columns.value, table.value, where), r3))
  }

  /** A sort key: what to sort by, and the direction if one is given. */
  datatype SortKey = SortKey(key: seq<Token>, descending: Option<bool>)

  function ReadKey(ts: seq<Token>): SortKey {
    if ts != [] && ts[|ts| - 1] == Word("DESC") then SortKey(ts[..|ts| - 1], Some(true))
    else if ts != [] && ts[|ts| - 1] == Word("ASC") then SortKey(ts[..|ts| - 1], Some(false))
    else SortKey(ts, None)
  }

  function ReadKeys(parts: seq<seq<Token>>): (keys: seq<SortKey>)
    ensures |keys| == |parts|
  {
    seq(|parts|, i requires 0 <= i < |parts| => ReadKey(parts[i]))
  }

  /** GROUP BY and ORDER BY: the elements of the list after BY, none when there is no such clause. */
  function ReadBy(body: Option<seq<Token>>): Option<seq<seq<Token>>> {
    if body == None then Some([])
    else if body.value != [] && body.value[0] == Word("BY") then Some(SplitCommas(body.value[1..]))
    else None
  }

  function ReadNumber(ts: seq<Token>): Option<nat> {
    if |ts| == 1 && ts[0].Word? && Decimal.AllDigits(ts[0].text) then Some(Decimal.Value(ts[0].text)) else None
  }

  /** OFFSET n, with or without ROWS. */
  function ReadOffset(ts: seq<Token>): Option<nat> {
    if |ts| == 2 && ts[1] == Word("ROWS") then ReadNumber(ts[..1]) else ReadNumber(ts)
  }

  /** FETCH NEXT n ROWS ONLY. */
  function ReadFetch(ts: seq<Token>): Option<nat> {
    if |ts| == 4 && ts[0] == Word("NEXT") && ts[2] == Word("ROWS") && ts[3] == Word("ONLY") then ReadNumber(ts[1..2]) else None
  }

  /** How many rows to return at most, and how many to skip before them. */
  datatype Page = Page(limit: Option<nat>, offset: Option<nat>)

  /** LIMIT before OFFSET, or OFFSET before FETCH. */
  function ReadPage(ss: seq<Section>): Option<Page> {
    var (limit, r1) := Take(ss, "LIMIT");
    var (offset, r2) := Take(r1, "OFFSET");
    var (fetch, r3) := Take(r2, "FETCH");
    if r3 != [] || (limit.Some? && fetch.Some?) then None
    else
      var most := if limit.Some? then ReadNumber(limit.value) else if fetch.Some? then ReadFetch(fetch.value) else None;
      var skipped := if offset.Some? then ReadOffset(offset.value) else None;
      if (most == None && (limit.Some? || fetch.Some?)) || (skipped == None && offset.Some?) then None
      else Some(Page(most, skipped))
  }

  /** The end of a query: its order and its page. */
  datatype Tail = Tail(orderBy: seq<SortKey>, page: Page)

  function ReadTail(ss: seq<Section>): Option<Tail> {
    var (order, rest) := Take(ss, "ORDER");
    match (ReadBy(order), ReadPage(rest))
    case (Some(parts), Some(page)) => Some(Tail(ReadKeys(parts), page))
    case _ => None
  }

  datatype SelectClauses = SelectClauses(ctes: seq<(string, Source)>, source: Source, groupBy: seq<seq<Token>>,
                                         having: Option<seq<Token>>, tail: Tail)

  /** A name, AS, and a query specification in parentheses. */
  function ReadCte(ts: seq<Token>): Option<(string, Source)> {
    if |ts| < 4 || !ts[0].Name? || ts[1] != Word("AS") || ts[2] != Sign('(') || ts[|ts| - 1] != Sign(')') then None
    else match Sections(ts[3..|ts| - 1])
      case None => None
      case Some(ss) =>
        match ReadSource(ss)
        case None => None
        case Some((source, rest)) => if rest == [] then Some((ts[0].id, source)) else None
  }

  function ReadCtes(parts: seq<seq<Token>>): Option<seq<(string, Source)>> {
    if parts == [] then Some([])
    else match (ReadCte(parts[0]), ReadCtes(parts[1..]))
      case (Some(cte), Some(rest)) => Some([cte] + rest)
      case _ => None
  }

  function ReadSelect(ts: seq<Token>): Option<SelectClauses> {
    match Sections(ts)
    case None => None
    case Some(ss) =>
      var (with, rest) := Take(ss, "WITH");
      match (if with == None then Some([]) else ReadCtes(SplitCommas(with.value)), ReadSource(rest))
      case (Some(ctes), Some((source, r1))) => ReadGrouping(ctes, source, r1)
      case _ => None
  }

  function ReadGrouping(ctes: seq<(string, Source)>, source: Source, ss: seq<Section>): Option<SelectClauses> {
    var (group, r1) := Take(ss, "GROUP");
    var (having, r2) := Take(r1, "HAVING");
    match (ReadBy(group), ReadTail(r2))
    case (Some(groupBy), Some(tail)) => Some(SelectClauses(ctes, source, groupBy, having, tail))
    case _ => None
  }

  datatype SetClauses = SetClauses(base: Source, operations: seq<(SetOp, Source)>, tail: Tail)

  /** The set operator at the start, if there is one. */
  function ReadOperator(ss: seq<Section>): Option<SetOp> {
    if ss == [] then None
    else if ss[0] == Section("UNION", []) then Some(Union)
    else if ss[0] == Section("UNION", [Word("ALL")]) then Some(UnionAll)
    else if ss[0] == Section("INTERSECT", []) then Some(Intersect)
    else if ss[0] == Section("EXCEPT", []) then Some(Except)
    else None
  }

  function ReadOperations(ss: seq<Section>): (r: Option<(seq<(SetOp, Source)>, seq<Section>)>)
    decreases |ss|
  {
    match ReadOperator(ss)
    case None => Some(([], ss))
    case Some(op) =>
      match ReadSource(ss[1..])
      case None => None
      case Some((source, rest)) =>
        if |rest| >= |ss| then None
        else match ReadOperations(rest)
          case None => None
          case Some((more, after)) => Some(([(op, source)] + more, after))
  }

  function ReadSetOperation(ts: seq<Token>): Option<SetClauses> {
    match Sections(ts)
    case None => None
    case Some(ss) =>
      match ReadSource(ss)
      case None => None
      case Some((base, r1)) =>
        match ReadOperations(r1)
        case None => None
        case Some((operations, r2)) =>
          match ReadTail(r2)
          case None => None
          case Some(tail) => Some(SetClauses(base, operations, tail))
  }

  /** A joined table: the kind of join, the table, and the condition. */
  datatype JoinClause = JoinClause(kind: string, table: string, on: seq<Token>)

  datatype JoinClauses = JoinClauses(distinct: bool, columns: seq<(string, string)>, table: string, joins: seq<JoinClause>,
                                     where: Option<seq<Token>>, tail: Tail)

  function QualifiedNames(parts: seq<seq<Token>>): Option<seq<(string, string)>> {
    if parts == [] then Some([])
    else if |parts[0]| == 3 && parts[0][0].Name? && parts[0][1] == Sign('.') && parts[0][2].Name? then
      match QualifiedNames(parts[1..])
      case None => None
      case Some(names) => Some([(parts[0][0].id, parts[0][2].id)] + names)
    else None
  }

  function ReadQualified(ts: seq<Token>): Option<seq<(string, string)>> {
    if ts == [] then Some([]) else QualifiedNames(SplitCommas(ts))
  }

  function ReadJoins(ss: seq<Section>): (seq<JoinClause>, seq<Section>)
    decreases |ss|
  {
    if |ss| >= 2 && (ss[0].head == "INNER" || ss[0].head == "LEFT") && |ss[0].body| == 2 && ss[0].body[0] == Word("JOIN")
       && ss[0].body[1].Name? && ss[1].head == "ON" then
      var (more, rest) := ReadJoins(ss[2..]);
      ([JoinClause(ss[0].head + " JOIN", ss[0].body[1].id, ss[1].body)] + more, rest)
    else ([], ss)
  }

  function ReadJoinedSelect(ts: seq<Token>): Option<JoinClauses> {
    match Sections(ts)
    case None => None
    case Some(ss) =>
      var (selected, r1) := Take(ss, "SELECT");
      var (from, r2) := Take(r1, "FROM");
      var (joins, r3) := ReadJoins(r2);
      var (where, r4) := Take(r3, "WHERE");
      if selected == None || from == None then None
      else
        var (distinct, list) := ReadDistinct(selected.value);
        match (ReadQualified(list), ReadName(from.value), ReadTail(r4))
        case (Some(columns), Some(table), Some(tail)) => Some(JoinClauses(distinct, columns, table, joins, where, tail))
        case _ => None
  }

  /** An INSERT: no values stand for DEFAULT VALUES; the column whose new value is asked for may come by either clause. */
  datatype InsertClauses = InsertClauses(table: string, columns: seq<string>, values: Option<seq<seq<Token>>>,
                                         output: Option<string>, returning: Option<string>)

  /** A list in parentheses. */
  function ReadList(ts: seq<Token>): Option<seq<seq<Token>>> {
    if |ts| < 2 || ts[0] != Sign('(') || ts[|ts| - 1] != Sign(')') then None
    else if |ts| == 2 then Some([])
    else Some(SplitCommas(ts[1..|ts| - 1]))
  }

  function ReadTarget(ts: seq<Token>): Option<(string, seq<string>)> {
    if |ts| < 2 || ts[0] != Word("INTO") || !ts[1].Name? then None
    else if |ts| == 2 then Some((ts[1].id, []))
    else match ReadList(ts[2..])
      case None => None
      case Some(parts) => (match NamesOf(parts) case None => None case Some(names) => Some((ts[1].id, names)))
  }

  function ReadOutput(body: Option<seq<Token>>): Option<Option<string>> {
    if body == None then Some(None)
    else if |body.value| == 3 && body.value[0] == Word("INSERTED") && body.value[1] == Sign('.') && body.value[2].Name? then
      Some(Some(body.value[2].id))
    else None
  }

  function ReadReturning(body: Option<seq<Token>>): Option<Option<string>> {
    if body == None then Some(None)
    else match ReadName(body.value)
      case None => None
      case Some(name) => Some(Some(name))
  }

  /** DEFAULT VALUES, or VALUES and a list. */
  function ReadValues(byDefault: Option<seq<Token>>, values: Option<seq<Token>>): Option<Option<seq<seq<Token>>>> {
    if values == None then None
    else if byDefault == Some([]) && values == Some([]) then Some(None)
    else if byDefault == None then (match ReadList(values.value) case None => None case Some(parts) => Some(Some(parts)))
    else None
  }

  function ReadInsert(ts: seq<Token>): Option<InsertClauses> {
    match Sections(ts)
    case None => None
    case Some(ss) =>
      var (into, r1) := Take(ss, "INSERT");
      var (output, r2) := Take(r1, "OUTPUT");
      var (byDefault, r3) := Take(r2, "DEFAULT");
      var (values, r4) := Take(r3, "VALUES");
      var (returning, r5) := Take(r4, "RETURNING");
      if into == None || r5 != [] then None
      else
        match (ReadTarget(into.value), ReadValues(byDefault, values), ReadOutput(output), ReadReturning(returning))
        case (Some((table, columns)), Some(list), Some(out), Some(ret)) => Some(InsertClauses(table, columns, list, out, ret))
        case _ => None
  }

  datatype UpdateClauses = UpdateClauses(table: string, assignments: seq<(string, seq<Token>)>, where: Option<seq<Token>>)

  /** Each column with the tokens of its new value. */
  function ReadAssignments(parts: seq<seq<Token>>): Option<seq<(string, seq<Token>)>> {
    if parts == [] then Some([])
    else if |parts[0]| >= 2 && parts[0][0].Name? && parts[0][1] == Sign('=') then
      match ReadAssignments(parts[1..])
      case None => None
      case Some(rest) => Some([(parts[0][0].id, parts[0][2..])] + rest)
    else None
  }

  function ReadUpdate(ts: seq<Token>): Option<UpdateClauses> {
    match Sections(ts)
    case None => None
    case Some(ss) =>
      var (table, r1) := Take(ss, "UPDATE");
      var (changes, r2) := Take(r1, "SET");
      var (where, r3) := Take(r2, "WHERE");
      if table == None || changes == None || r3 != [] then None
      else
        match (ReadName(table.value), if changes == Some([]) then Some([]) else ReadAssignments(SplitCommas(changes.value)))
        case (Some(name), Some(assignments)) => Some(UpdateClauses(name, assignments, where))
        case _ => None
  }

  // ---------------------------------------------------------------------------------------------
  // Cutting inverts joining
  // ---------------------------------------------------------------------------------------------

  /** The depth after some tokens; none if a stop is met outside parentheses. */
  function Level(ts: seq<Token>, depth: nat, list: bool): Option<nat> {
    if ts == [] then Some(depth)
    else if depth == 0 && Stops(ts[0], list) then None
    else Level(ts[1..], Deeper(ts[0], depth), list)
  }

  /** Parentheses match, and no clause begins outside them; for an element of a list, no comma stands there either. */
  predicate Solid(ts: seq<Token>, list: bool) { Level(ts, 0, list) == Some(0) }

  function Onwards(k: Option<nat>, ts: seq<Token>, list: bool): Option<nat> { if k == None then None else Level(ts, k.value, list) }

  lemma LevelJoin(a: seq<Token>, b: seq<Token>, depth: nat, list: bool)
    ensures Level(a + b, depth, list) == Onwards(Level(a, depth, list), b, list)
  {
    if a == [] {
      assert a + b == b;
    } else {
      assert (a + b)[1..] == a[1..] + b;
      if !(depth == 0 && Stops(a[0], list)) { LevelJoin(a[1..], b, Deeper(a[0], depth), list); }
    }
  }

  /** Deeper inside parentheses, or where commas do not matter, nothing stops that did not stop before. */
  lemma {:induction false} LevelDeeper(ts: seq<Token>, depth: nat, list: bool, more: nat, other: bool)
    requires Level(ts, depth, list).Some? && (other ==> list || more > 0)
    ensures Level(ts, depth + more, other) == Some(Level(ts, depth, list).value + more)
    decreases |ts|
  {
    if ts != [] { LevelDeeper(ts[1..], Deeper(ts[0], depth), list, more, other); }
  }

  lemma SolidJoin(a: seq<Token>, b: seq<Token>, list: bool)
    requires Solid(a, list) && Solid(b, list)
    ensures Solid(a + b, list)
  {
    LevelJoin(a, b, 0, list);
  }

  lemma SolidInLists(ts: seq<Token>)
    requires Solid(ts, true)
    ensures Solid(ts, false)
  {
    LevelDeeper(ts, 0, true, 0, false);
  }

  /** One token that is no parenthesis. */
  lemma OneIsSolid(t: Token, list: bool)
    requires !Stops(t, list) && t != Sign('(')
    ensures Solid([t], list)
  {
    assert [t][1..] == [];
  }

  lemma NothingIsSolid(list: bool)
    ensures Solid([], list)
  {
  }

  /** Tokens whose parentheses match, when there is at least one pair around them. */
  predicate Nested(ts: seq<Token>) { Level(ts, 1, true) == Some(1) }

  lemma NestedJoin(a: seq<Token>, b: seq<Token>)
    requires Nested(a) && Nested(b)
    ensures Nested(a + b)
  {
    LevelJoin(a, b, 1, true);
  }

  lemma SolidNests(ts: seq<Token>, list: bool)
    requires Solid(ts, list)
    ensures Nested(ts)
  {
    LevelDeeper(ts, 0, list, 1, true);
  }

  predicate NoParentheses(ts: seq<Token>) { forall i :: 0 <= i < |ts| ==> ts[i] != Sign('(') && ts[i] != Sign(')') }

  lemma {:induction false} FlatNests(ts: seq<Token>)
    requires NoParentheses(ts)
    ensures Nested(ts)
    decreases |ts|
  {
    if ts != [] { FlatNests(ts[1..]); }
  }

  /** Whatever is nested is solid in parentheses. */
  lemma ParenthesesAreSolid(ts: seq<Token>, list: bool)
    requires Nested(ts)
    ensures Solid([Sign('(')] + ts + [Sign(')')], list)
  {
    var begun := [Sign('(')] + ts;
    LevelDeeper(ts, 1, true, 0, list);
    assert [Sign('(')][1..] == [] && [Sign(')')][1..] == [];
    assert Level([Sign('(')], 0, list) == Level([], 1, list) == Some(1);
    LevelJoin([Sign('(')], ts, 0, list);
    assert Level(begun, 0, list) == Some(1);
    assert Level([Sign(')')], 1, list) == Level([], 0, list) == Some(0);
    LevelJoin(begun, [Sign(')')], 0, list);
  }

  lemma {:induction false} RunStops(ts: seq<Token>, rest: seq<Token>, depth: nat, list: bool)
    requires Level(ts, depth, list) == Some(0) && (rest == [] || Stops(rest[0], list))
    ensures Run(ts + rest, depth, list) == |ts|
    decreases |ts|
  {
    if ts == [] {
      assert ts + rest == rest;
    } else {
      assert (ts + rest)[1..] == ts[1..] + rest;
      RunStops(ts[1..], rest, Deeper(ts[0], depth), list);
    }
  }

  /** The text of some clauses. */
  function Lay(ss: seq<Section>): seq<Token> {
    if ss == [] then [] else [Word(ss[0].head)] + ss[0].body + Lay(ss[1..])
  }

  lemma LayJoin(a: seq<Section>, b: seq<Section>)
    ensures Lay(a + b) == Lay(a) + Lay(b)
  {
    if a == [] {
      assert a + b == b;
    } else {
      assert (a + b)[1..] == a[1..] + b;
      LayJoin(a[1..], b);
      assert Lay(a + b) == [Word(a[0].head)] + a[0].body + (Lay(a[1..]) + Lay(b));
    }
  }

  predicate Proper(s: Section) { IsHead(s.head) && Solid(s.body, false) }

  predicate AllProper(ss: seq<Section>) { forall i :: 0 <= i < |ss| ==> Proper(ss[i]) }

  /** The clauses of a text are those it was laid out from. */
  lemma {:induction false} SectionsOfLay(ss: seq<Section>)
    requires AllProper(ss)
    ensures Sections(Lay(ss)) == Some(ss)
    decreases |ss|
  {
    if ss != [] {
      hide IsHead, Level;
      var body, rest := ss[0].body, Lay(ss[1..]);
      SectionsOfLay(ss[1..]);
      assert Proper(ss[0]);
      HeadStops(ss[1..]);
      RunStops(body, rest, 0, false);
      assert ([Word(ss[0].head)] + body + rest)[1..] == body + rest;
      assert (body + rest)[..|body|] == body && (body + rest)[|body|..] == rest;
      assert ss == [Section(ss[0].head, body)] + ss[1..];
    }
  }

  lemma HeadStops(ss: seq<Section>)
    requires AllProper(ss)
    ensures Lay(ss) == [] || Stops(Lay(ss)[0], false)
  {
    if ss != [] { assert Proper(ss[0]); }
  }

  /** A list with commas between its elements. */
  function Commaed(parts: seq<seq<Token>>): seq<Token> {
    if parts == [] then []
    else Commaed(parts[..|parts| - 1]) + (if |parts| > 1 then [Sign(',')] else []) + parts[|parts| - 1]
  }

  lemma {:induction false} CommaedFirst(parts: seq<seq<Token>>)
    requires |parts| > 1
    ensures Commaed(parts) == parts[0] + ([Sign(',')] + Commaed(parts[1..]))
    decreases |parts|
  {
    var n := |parts| - 1;
    var front, last := parts[..n], parts[n];
    if n == 1 {
      assert front[..0] == [] && parts[1..] == [last] && [last][..0] == [];
      assert Commaed(front) == [] + [] + parts[0] && Commaed([last]) == [] + [] + last;
    } else {
      CommaedFirst(front);
      assert front[1..] == parts[1..][..n - 1];
      var a, b := parts[0], Commaed(front[1..]);
      assert a + ([Sign(',')] + b) + [Sign(',')] + last == a + ([Sign(',')] + (b + [Sign(',')] + last));
    }
  }

  predicate AllSolid(parts: seq<seq<Token>>) { forall i :: 0 <= i < |parts| ==> Solid(parts[i], true) }

  lemma LastElement(part: seq<Token>)
    requires Solid(part, true)
    ensures SplitCommas(part) == [part]
  {
    hide Level;
    assert part + [] == part;
    RunStops(part, [], 0, true);
  }

  lemma FirstElement(part: seq<Token>, rest: seq<Token>)
    requires Solid(part, true)
    ensures SplitCommas(part + ([Sign(',')] + rest)) == [part] + SplitCommas(rest)
  {
    hide Level;
    var all := part + ([Sign(',')] + rest);
    RunStops(part, [Sign(',')] + rest, 0, true);
    assert all[..|part|] == part && all[|part|] == Sign(',') && all[|part| + 1..] == rest;
  }

  lemma SolidList(part: seq<Token>, rest: seq<Token>)
    requires Solid(part, true) && Solid(rest, false)
    ensures Solid(part + ([Sign(',')] + rest), false)
  {
    hide Level;
    SolidInLists(part);
    OneIsSolid(Sign(','), false);
    SolidJoin([Sign(',')], rest, false);
    SolidJoin(part, [Sign(',')] + rest, false);
  }

  lemma CommaedOne(part: seq<Token>)
    ensures Commaed([part]) == part && Commaed([]) == []
  {
    assert [part][..0] == [];
  }

  lemma {:induction false} SplitOfCommaed(parts: seq<seq<Token>>)
    requires parts != [] && AllSolid(parts)
    ensures SplitCommas(Commaed(parts)) == parts && Solid(Commaed(parts), false)
    decreases |parts|
  {
    hide Solid, SplitCommas, Commaed;
    var first := parts[0];
    if |parts| == 1 {
      assert parts == [first];
      CommaedOne(first);
      LastElement(first);
      SolidInLists(first);
    } else {
      CommaedFirst(parts);
      SplitOfCommaed(parts[1..]);
      FirstElement(first, Commaed(parts[1..]));
      SolidList(first, Commaed(parts[1..]));
      assert parts == [first] + parts[1..];
    }
  }

  // ---------------------------------------------------------------------------------------------
  // Reading clauses that may be missing
  // ---------------------------------------------------------------------------------------------

  function Clause(head: string, body: Option<seq<Token>>): seq<Section> { if body.Some? then [Section(head, body.value)] else [] }

  predicate BeginsOther(ss: seq<Section>, head: string) { ss == [] || ss[0].head != head }

  lemma TakeClause(head: string, body: Option<seq<Token>>, rest: seq<Section>)
    requires body.Some? || BeginsOther(rest, head)
    ensures Take(Clause(head, body) + rest, head) == (body, rest)
  {
    if body.Some? { assert (Clause(head, body) + rest)[1..] == rest; } else { assert Clause(head, body) + rest == rest; }
  }
}
