/** The statement a batched insert prepares once, and the rows it is bound to. */
module BatchStatements {
  import opened Values
  import opened Dialects
  import opened LayoutTree
  import opened SqlAst
  import opened SqlText
  import opened SqlStatements
  import opened StatementProperties
  import opened SqlLexer
  import opened SqlReader
  import opened InsertReader
  import B = BatchContext

  /** Values print as placeholders, so only their number shows in the text. */
  lemma {:induction false} ValuesDoNotShow(d: Dialect, values: seq<BoundValue>, others: seq<BoundValue>, base: nat)
    requires |values| == |others|
    ensures ItemText(d, ValueItems(values), base) == ItemText(d, ValueItems(others), base)
    ensures |ItemSlots(ValueItems(values))| == |ItemSlots(ValueItems(others))|
    decreases |values|
  {
    hide ItemText, ItemSlots, Toks;
    if values == [] {
      assert values == others;
    } else {
      var n := |values| - 1;
      ValuesDoNotShow(d, values[..n], others[..n], base);
      LastValueText(d, values, base);
      LastValueText(d, others, base);
    }
  }

  /** The text and the slots grow by one placeholder, after a comma if one is needed. */
  ghost predicate OneMore(d: Dialect, items: seq<Item>, front: seq<Item>, needed: bool, base: nat) {
    && ItemText(d, items, base) == ItemText(d, front, base) + LexText(d, CommaIf(needed)) + "?"
    && |ItemSlots(items)| == |ItemSlots(front)| + 1
  }

  lemma LastValueText(d: Dialect, values: seq<BoundValue>, base: nat)
    requires values != []
    ensures OneMore(d, ValueItems(values), ValueItems(values[..|values| - 1]), |values| > 1, base)
  {
    hide OneMore, ValueItems, Toks;
    ValueItemsStep(values);
    NextValue(d, ValueItems(values), ValueItems(values[..|values| - 1]), |values| > 1, Static(values[|values| - 1]), base);
  }

  lemma NextValue(d: Dialect, items: seq<Item>, front: seq<Item>, needed: bool, slot: Slot, base: nat)
    requires items == front + Toks(CommaIf(needed)) + [Sub(Leaf(slot))]
    ensures OneMore(d, items, front, needed, base)
  {
    hide ItemText, ItemSlots, LexText, Toks, TreeText, Slots, CommaIf;
    TextOfThree(d, front, CommaIf(needed), Leaf(slot), base);
    LeafText(d, slot, base + |ItemSlots(front)|);
  }

  lemma ValueItemsStep(values: seq<BoundValue>)
    requires values != []
    ensures ValueItems(values)
         == ValueItems(values[..|values| - 1]) + Toks(CommaIf(|values| > 1)) + [Sub(Leaf(Static(values[|values| - 1])))]
  {
    hide Toks;
  }

  lemma LeafText(d: Dialect, slot: Slot, base: nat)
    ensures TreeText(d, Leaf(slot), base) == "?" && |Slots(Leaf(slot))| == 1
  {
    var p := [Mark(base)];
    assert p[1..] == [] && Flatten(d, p) == "?" + Flatten(d, p[1..]);
  }

  lemma InsertTextWithoutValues(d: Dialect, table: string, columns: seq<string>, values: seq<BoundValue>, others: seq<BoundValue>)
    requires |values| == |others|
    ensures ItemText(d, InsertItems(d, table, columns, values, ""), 0) == ItemText(d, InsertItems(d, table, columns, others, ""), 0)
  {
    hide ItemText, ItemSlots, Toks, InsertHead, ValueItems;
    var head := InsertHead(d, table, columns, "");
    BodyText(d, columns, values, |ItemSlots(head)|);
    BodyText(d, columns, others, |ItemSlots(head)|);
    ValuesDoNotShow(d, values, others, |ItemSlots(head)|);
    TextOfAppend(d, head, InsertBody(d, columns, values, ""), 0);
    TextOfAppend(d, head, InsertBody(d, columns, others, ""), 0);
  }

  lemma BodyText(d: Dialect, columns: seq<string>, values: seq<BoundValue>, base: nat)
    ensures ItemText(d, InsertBody(d, columns, values, ""), base)
         == if columns == [] then LexText(d, [Raw(DEFAULT_VALUES)])
            else LexText(d, [Raw(VALUES_OPEN)]) + ItemText(d, ValueItems(values), base) + LexText(d, [RParen])
  {
    hide ItemText, ItemSlots, LexText, Toks, ValueItems;
    TextOfToks(d, [Raw(DEFAULT_VALUES)], base);
    TextOfToks(d, [Raw(VALUES_OPEN)], base);
    ListRow(d, Toks([Raw(VALUES_OPEN)]), ValueItems(values), [RParen], base);
    assert Toks([Raw(DEFAULT_VALUES)]) + [] == Toks([Raw(DEFAULT_VALUES)]);
    var body := Toks([Raw(VALUES_OPEN)]) + ValueItems(values) + Toks([RParen]);
    assert body + [] == body;
  }

  /**
   * The statement `insert_many` prepares with dummy values is the one of every entity, and the row an entity is bound
   * as is that statement's own parameter list: the value bound to the placeholder `p` is that of the `p`-th column
   * listed in the statement, as a reader of its characters finds them.
   */
  lemma InsertManyBindsEntities(d: Dialect, table: string, columns: seq<B.Column>, entity: seq<BoundValue>, dummies: seq<BoundValue>,
                                g: GeneratedSql, h: GeneratedSql, p: nat) returns (i: nat)
    requires |entity| == |columns|
    requires |dummies| == |B.Names(B.Inserting, columns, false)| && p < |dummies|
    requires Generates(d, g, InsertItems(d, table, B.Names(B.Inserting, columns, false), dummies, ""))
    requires Generates(d, h, InsertItems(d, table, B.Names(B.Inserting, columns, false), B.RowOf(B.Inserting, columns, entity), ""))
    ensures g.sql == h.sql && |g.slots| == |h.slots| == |dummies|
    ensures i < |columns| && !columns[i].isAutoIncrement
    ensures var read := ReadInsert(Tokenize(d, g.sql));
      && read.Some? && read.value.table == table && p < |read.value.columns| && read.value.columns[p] == columns[i].name
      && read.value.values == Some(MarkTokens(|read.value.columns|))
    ensures h.params == B.RowOf(B.Inserting, columns, entity)
    ensures p < |h.params| && h.params[p] == entity[i]
  {
    hide InsertItems, Generates, ItemText, Tokenize, ReadInsert, MarkTokens;
    InsertReadsBack(d, g, table, B.Names(B.Inserting, columns, false), dummies, "");
    var names, row := B.Names(B.Inserting, columns, false), B.RowOf(B.Inserting, columns, entity);
    B.GroupLength(B.Inserting, columns, entity, false);
    NoKeyGroup(columns, entity);
    InsertTextWithoutValues(d, table, names, dummies, row);
    GeneratedText(d, g, InsertItems(d, table, names, dummies, ""));
    GeneratedText(d, h, InsertItems(d, table, names, row, ""));
    InsertBindsItsValues(d, g, table, names, dummies, "");
    InsertBindsItsValues(d, h, table, names, row, "");
    i := B.ValuesMeetTheirPlaceholders(B.Inserting, columns, entity, false, p);
  }

  lemma GeneratedText(d: Dialect, g: GeneratedSql, items: seq<Item>)
    requires Generates(d, g, items)
    ensures g.sql == ItemText(d, items, 0)
  {
  }

  lemma {:induction false} NoKeyGroup(columns: seq<B.Column>, entity: seq<BoundValue>)
    requires |entity| == |columns|
    ensures B.Group(B.Inserting, columns, entity, true) == []
    ensures B.RowOf(B.Inserting, columns, entity) == B.Group(B.Inserting, columns, entity, false)
    decreases |columns|
  {
    if columns != [] {
      var n := |columns| - 1;
      NoKeyGroup(columns[..n], entity[..n]);
    }
  }
}
