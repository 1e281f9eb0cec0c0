/** Shaping a query's result: columns are grouped by name, duplicated names become arrays, and the names and the
    values of a record are filled by two separate loops. */
module QueryResult {
  import opened Options
  import JsoxModel

  /** A column of the answer; an empty alias stands for no table alias. */
  datatype Column = Column(name: string, alias: string)

  /** One name: how often it is used, and by which column first. */
  datatype Field = Field(name: string, used: nat, first: nat)

  /** Where a column goes: its field, how many columns of that field come before it, and its table. */
  datatype Mapped = Mapped(col: nat, depth: nat, table: nat)

  // ---- names -----------------------------------------------------------------------------------------------

  function Fold(c: char): char {
    if 'A' <= c <= 'Z' then (c as int + 32) as char else c
  }

  /** Letters go with their other case, and every other character with itself. */
  lemma FoldJoinsCases(a: char, b: char)
    ensures Fold(a) == Fold(b) <==> a == b || ('A' <= a <= 'Z' && b as int == a as int + 32)
                                    || ('A' <= b <= 'Z' && a as int == b as int + 32)
  {
  }

  /** Equal but for the case of letters. */
  predicate Same(a: string, b: string) {
    |a| == |b| && forall i :: 0 <= i < |a| ==> Fold(a[i]) == Fold(b[i])
  }

  function Count(cols: seq<Column>, name: string): nat {
    if cols == [] then 0
    else Count(cols[..|cols| - 1], name) + if Same(cols[|cols| - 1].name, name) then 1 else 0
  }

  lemma {:induction false} CountOne(cols: seq<Column>, c: Column, name: string)
    ensures Count(cols + [c], name) == Count(cols, name) + if Same(c.name, name) then 1 else 0
  {
    assert (cols + [c])[..|cols|] == cols;
  }

  lemma {:induction false} CountSame(cols: seq<Column>, a: string, b: string)
    requires Same(a, b)
    ensures Count(cols, a) == Count(cols, b)
  {
    if cols != [] { CountSame(cols[..|cols| - 1], a, b); }
  }

  lemma {:induction false} CountFinds(cols: seq<Column>, name: string) returns (i: nat)
    requires Count(cols, name) > 0
    ensures i < |cols| && Same(cols[i].name, name)
  {
    i := |cols| - 1;
    if !Same(cols[i].name, name) { i := CountFinds(cols[..i], name); }
  }

  lemma {:induction false} CountGrows(cols: seq<Column>, n: nat, name: string)
    requires n <= |cols|
    ensures Count(cols[..n], name) <= Count(cols, name)
    ensures n < |cols| && Same(cols[n].name, name) ==> Count(cols[..n], name) < Count(cols, name)
  {
    if n == |cols| {
      assert cols[..n] == cols;
    } else {
      var k := |cols| - 1;
      CountGrows(cols[..k], n, name);
      assert cols[..k][..n] == cols[..n];
    }
  }

  // ---- what a grouping is ----------------------------------------------------------------------------------

  /** The fields are the names, compared without case, in order of first appearance; each column is mapped to the
      field of its name, at the depth of the number of columns of that name before it. */
  ghost predicate Grouping(cols: seq<Column>, fields: seq<Field>, maps: seq<Mapped>) {
    && |maps| == |cols|
    && (forall m :: 0 <= m < |fields| ==>
          && fields[m].first < |cols| && fields[m].name == cols[fields[m].first].name
          && fields[m].used == Count(cols, fields[m].name))
    && (forall m, k :: 0 <= m < k < |fields| ==>
          fields[m].first < fields[k].first && !Same(fields[m].name, fields[k].name))
    && (forall i :: 0 <= i < |maps| ==> MappedWell(cols, fields, maps[i], i))
  }

  ghost predicate MappedWell(cols: seq<Column>, fields: seq<Field>, to: Mapped, i: nat) {
    && i < |cols| && to.col < |fields| && fields[to.col].first <= i
    && Same(fields[to.col].name, cols[i].name) && to.depth == Count(cols[..i], cols[i].name)
  }

  lemma NameIsGrouped(cols: seq<Column>, fields: seq<Field>, maps: seq<Mapped>, name: string) returns (m: nat)
    requires Grouping(cols, fields, maps) && Count(cols, name) > 0
    ensures m < |fields| && Same(fields[m].name, name)
  {
    var i := CountFinds(cols, name);
    assert MappedWell(cols, fields, maps[i], i);
    m := maps[i].col;
  }

  lemma EarlierColumnOfField(cols: seq<Column>, fields: seq<Field>, maps: seq<Mapped>, m: nat, j: nat)
    requires Grouping(cols, fields, maps) && m < |fields| && j < |cols| && Same(cols[j].name, fields[m].name)
    ensures maps[j].col == m && fields[m].first <= j
  {
    assert MappedWell(cols, fields, maps[j], j);
    assert Same(fields[maps[j].col].name, fields[m].name);
  }

  lemma Known(cols: seq<Column>, fields: seq<Field>, maps: seq<Mapped>, c: Column, m: nat, table: nat)
    requires Grouping(cols, fields, maps) && m < |fields| && Same(fields[m].name, c.name)
    ensures Grouping(cols + [c], fields[m := fields[m].(used := fields[m].used + 1)],
                     maps + [Mapped(m, fields[m].used, table)])
  {
    var all, fs := cols + [c], fields[m := fields[m].(used := fields[m].used + 1)];
    CountSame(cols, fields[m].name, c.name);
    forall k | 0 <= k < |fs| ensures fs[k].used == Count(all, fs[k].name) {
      CountOne(cols, c, fs[k].name);
      if k != m { assert !Same(fields[k].name, c.name); }
    }
    forall i | 0 <= i <= |maps| ensures all[..i] == cols[..i] {}
    assert all[..|cols|] == cols;
    forall i | 0 <= i < |maps| ensures MappedWell(all, fs, maps[i], i) {
      assert MappedWell(cols, fields, maps[i], i);
    }
  }

  lemma New(cols: seq<Column>, fields: seq<Field>, maps: seq<Mapped>, c: Column, table: nat)
    requires Grouping(cols, fields, maps) && forall m :: 0 <= m < |fields| ==> !Same(fields[m].name, c.name)
    ensures Grouping(cols + [c], fields + [Field(c.name, 1, |cols|)], maps + [Mapped(|fields|, 0, table)])
  {
    var all, fs := cols + [c], fields + [Field(c.name, 1, |cols|)];
    if Count(cols, c.name) > 0 {
      var m := NameIsGrouped(cols, fields, maps, c.name);
      assert false;
    }
    forall k | 0 <= k < |fs| ensures fs[k].used == Count(all, fs[k].name) {
      CountOne(cols, c, fs[k].name);
    }
    assert all[..|cols|] == cols;
    forall i | 0 <= i < |maps| ensures MappedWell(all, fs, maps[i], i) {
      assert MappedWell(cols, fields, maps[i], i) && all[..i] == cols[..i];
    }
  }

  /** A field is led by the column that uses it first, at depth 0, and every other column of the field comes later,
      deeper. */
  lemma Leaders(cols: seq<Column>, fields: seq<Field>, maps: seq<Mapped>, i: nat)
    requires Grouping(cols, fields, maps) && i < |cols|
    ensures MappedWell(cols, fields, maps[i], i)
    ensures fields[maps[i].col].first == i <==> maps[i].depth == 0
    ensures maps[i].depth < fields[maps[i].col].used
    ensures forall m :: 0 <= m < |fields| && fields[m].first == i ==> maps[i].col == m
  {
    var to := maps[i];
    assert MappedWell(cols, fields, to, i);
    var f := fields[to.col];
    CountGrows(cols, i, cols[i].name);
    CountSame(cols, f.name, cols[i].name);
    if f.first < i {
      CountGrows(cols[..i], f.first, cols[i].name);
    }
    if f.first == i && to.depth > 0 {
      var j := CountFinds(cols[..i], cols[i].name);
      EarlierColumnOfField(cols, fields, maps, to.col, j);
    }
    forall m | 0 <= m < |fields| && fields[m].first == i ensures to.col == m {
      assert Same(fields[m].name, f.name);
    }
  }

  // ---- table aliases ---------------------------------------------------------------------------------------

  /** No alias, then each alias once, in order of first appearance. */
  function Aliases(cols: seq<Column>): seq<string> {
    if cols == [] then [""]
    else
      var before, alias := Aliases(cols[..|cols| - 1]), cols[|cols| - 1].alias;
      if alias in before then before else before + [alias]
  }

  lemma {:induction false} AliasesOnce(cols: seq<Column>)
    ensures var t := Aliases(cols);
            && 1 <= |t| <= |cols| + 1 && t[0] == ""
            && (forall i, j :: 0 <= i < j < |t| ==> t[i] != t[j])
            && (forall a :: a in t <==> a == "" || exists i :: 0 <= i < |cols| && cols[i].alias == a)
  {
    if cols != [] {
      var k := |cols| - 1;
      AliasesOnce(cols[..k]);
      assert forall i :: 0 <= i < k ==> cols[..k][i] == cols[i];
    }
  }

  lemma AliasesGrow(cols: seq<Column>, c: Column)
    ensures Aliases(cols + [c]) == if c.alias in Aliases(cols) then Aliases(cols) else Aliases(cols) + [c.alias]
  {
    assert (cols + [c])[..|cols|] == cols;
  }

  ghost predicate InTables(cols: seq<Column>, tables: seq<string>, maps: seq<Mapped>) {
    |maps| == |cols|
    && forall i :: 0 <= i < |maps| ==> maps[i].table < |tables| && tables[maps[i].table] == cols[i].alias
  }

  ghost predicate SomeDuplicate(maps: seq<Mapped>) {
    exists i :: 0 <= i < |maps| && maps[i].depth > 0
  }

  /** The largest depth is only approximated, well enough to tell whether any name is duplicated. */
  ghost predicate DepthTells(maps: seq<Mapped>, maxDepth: nat) {
    && (maxDepth > 1 <==> SomeDuplicate(maps))
    && maxDepth != 1 && forall i :: 0 <= i < |maps| ==> maps[i].depth <= maxDepth
  }

  lemma DepthGrows(maps: seq<Mapped>, maxDepth: nat, to: Mapped)
    requires DepthTells(maps, maxDepth)
    ensures DepthTells(maps + [to], if to.depth > maxDepth then to.depth + 1 else maxDepth)
  {
    var all := maps + [to];
    if SomeDuplicate(maps) {
      var i :| 0 <= i < |maps| && maps[i].depth > 0;
      assert all[i].depth > 0;
    }
    if to.depth > 0 { assert all[|maps|].depth > 0; }
  }

  // ---- the first pass over the columns ---------------------------------------------------------------------

  method FindName(fields: array<Field>, usedFields: nat, name: string) returns (m: nat)
    requires usedFields <= fields.Length
    ensures m <= usedFields && (m < usedFields ==> Same(fields[m].name, name))
    ensures forall k :: 0 <= k < m ==> !Same(fields[k].name, name)
  {
    m := 0;
    while m < usedFields
      invariant m <= usedFields && forall k :: 0 <= k < m ==> !Same(fields[k].name, name)
    {
      if Same(fields[m].name, name) { return; }
      m := m + 1;
    }
  }

  /** Finds the alias among the tables or adds it; there is always room. */
  method PlaceInTable(tables: array<string>, usedTables: nat, ghost cols: seq<Column>, c: Column)
    returns (table: nat, used: nat)
    requires |cols| + 1 < tables.Length && usedTables <= tables.Length && tables[..usedTables] == Aliases(cols)
    modifies tables
    ensures used <= tables.Length && tables[..used] == Aliases(cols + [c])
    ensures table < used && tables[table] == c.alias
    ensures usedTables <= used && tables[..usedTables] == old(tables[..usedTables])
  {
    AliasesOnce(cols);
    AliasesGrow(cols, c);
    ghost var before := tables[..usedTables];
    table, used := 0, usedTables;
    if c.alias == "" { return; }
    table := 1;
    while table < usedTables
      invariant 1 <= table <= usedTables && forall k :: 0 <= k < table ==> before[k] != c.alias
    {
      assert tables[table] == before[table];
      if tables[table] == c.alias { return; }
      table := table + 1;
    }
    tables[table] := c.alias;
    used := usedTables + 1;
    assert tables[..usedTables] == before;
    assert tables[..used] == before + [c.alias];
  }

  /** The first pass has seen these columns. */
  ghost predicate Grouped(cols: seq<Column>, fields: seq<Field>, tables: seq<string>, maps: seq<Mapped>,
                          maxDepth: nat) {
    && Grouping(cols, fields, maps)
    && tables == Aliases(cols) && InTables(cols, tables, maps)
    && DepthTells(maps, maxDepth)
  }

  lemma InMoreTables(cols: seq<Column>, tables: seq<string>, maps: seq<Mapped>, c: Column, now: seq<string>, to: Mapped)
    requires InTables(cols, tables, maps) && tables <= now && to.table < |now| && now[to.table] == c.alias
    ensures InTables(cols + [c], now, maps + [to])
  {
    var all := maps + [to];
    forall i | 0 <= i < |all| ensures all[i].table < |now| && now[all[i].table] == (cols + [c])[i].alias {
      if i < |maps| { assert now[maps[i].table] == tables[maps[i].table]; }
    }
  }

  lemma GroupedNone()
    ensures Grouped([], [], [""], [], 0)
  {
  }

  /** The column's name is known, as field m. */
  lemma GroupedKnown(cols: seq<Column>, fields: seq<Field>, tables: seq<string>, maps: seq<Mapped>, maxDepth: nat,
                     c: Column, m: nat, now: seq<string>, table: nat)
    requires Grouped(cols, fields, tables, maps, maxDepth) && m < |fields| && Same(fields[m].name, c.name)
    requires now == Aliases(cols + [c]) && tables <= now && table < |now| && now[table] == c.alias
    ensures var to := Mapped(m, fields[m].used, table);
            Grouped(cols + [c], fields[m := fields[m].(used := fields[m].used + 1)], now, maps + [to],
                    if to.depth > maxDepth then to.depth + 1 else maxDepth)
  {
    hide Grouping, DepthTells, Aliases, InTables, Same;
    Known(cols, fields, maps, c, m, table);
    InMoreTables(cols, tables, maps, c, now, Mapped(m, fields[m].used, table));
    DepthGrows(maps, maxDepth, Mapped(m, fields[m].used, table));
  }

  lemma GroupedNew(cols: seq<Column>, fields: seq<Field>, tables: seq<string>, maps: seq<Mapped>, maxDepth: nat,
                   c: Column, now: seq<string>, table: nat)
    requires Grouped(cols, fields, tables, maps, maxDepth)
    requires forall m :: 0 <= m < |fields| ==> !Same(fields[m].name, c.name)
    requires now == Aliases(cols + [c]) && tables <= now && table < |now| && now[table] == c.alias
    ensures Grouped(cols + [c], fields + [Field(c.name, 1, |cols|)], now, maps + [Mapped(|fields|, 0, table)], maxDepth)
  {
    hide Grouping, DepthTells, Aliases, InTables, Same;
    New(cols, fields, maps, c, table);
    InMoreTables(cols, tables, maps, c, now, Mapped(|fields|, 0, table));
    DepthGrows(maps, maxDepth, Mapped(|fields|, 0, table));
  }

  /** One turn of the first pass. */
  method AddColumn(cols: seq<Column>, idx: nat, fields: array<Field>, usedFields: nat, tables: array<string>,
                   usedTables: nat, maps: array<Mapped>, maxDepth: nat)
    returns (fieldsNow: nat, tablesNow: nat, depthNow: nat)
    requires idx < |cols| == fields.Length == maps.Length && tables.Length == |cols| + 1
    requires usedFields <= idx && usedTables <= tables.Length
    requires Grouped(cols[..idx], fields[..usedFields], tables[..usedTables], maps[..idx], maxDepth)
    modifies fields, tables, maps
    ensures fieldsNow <= idx + 1 && tablesNow <= tables.Length
    ensures Grouped(cols[..idx + 1], fields[..fieldsNow], tables[..tablesNow], maps[..idx + 1], depthNow)
  {
    hide Grouped, Aliases, Same;
    var c := cols[idx];
    ghost var before, were, aliases, placed := cols[..idx], fields[..usedFields], tables[..usedTables], maps[..idx];
    assert cols[..idx + 1] == before + [c];
    var m := FindName(fields, usedFields, c.name);
    assert forall k :: 0 <= k < m ==> !Same(were[k].name, c.name);
    assert aliases == Aliases(before) by { TablesAre(before, were, aliases, placed, maxDepth); }
    var table;
    table, tablesNow := PlaceInTable(tables, usedTables, before, c);
    assert fields[..usedFields] == were && maps[..idx] == placed;
    ghost var now := tables[..tablesNow];
    assert aliases <= now;
    fieldsNow, depthNow := usedFields, maxDepth;
    if m < usedFields {
      GroupedKnown(before, were, aliases, placed, maxDepth, c, m, now, table);
      maps[idx] := Mapped(m, fields[m].used, table);
      if fields[m].used > maxDepth { depthNow := fields[m].used + 1; }
      fields[m] := fields[m].(used := fields[m].used + 1);
      assert fields[..fieldsNow] == were[m := fields[m]];
    } else {
      GroupedNew(before, were, aliases, placed, maxDepth, c, now, table);
      maps[idx] := Mapped(m, 0, table);
      fields[usedFields] := Field(c.name, 1, idx);
      fieldsNow := usedFields + 1;
      assert fields[..fieldsNow] == were + [fields[m]];
    }
    assert maps[..idx + 1] == placed + [maps[idx]];
  }

  lemma TablesAre(cols: seq<Column>, fields: seq<Field>, tables: seq<string>, maps: seq<Mapped>, maxDepth: nat)
    requires Grouped(cols, fields, tables, maps, maxDepth)
    ensures tables == Aliases(cols)
  {
  }

  method GroupColumns(cols: seq<Column>)
    returns (fields: array<Field>, usedFields: nat, tables: array<string>, usedTables: nat, maps: array<Mapped>,
             maxDepth: nat)
    ensures fresh(fields) && fresh(tables) && fresh(maps)
    ensures usedFields <= fields.Length == |cols| && usedTables <= tables.Length == |cols| + 1 && maps.Length == |cols|
    ensures Grouped(cols, fields[..usedFields], tables[..usedTables], maps[..], maxDepth)
  {
    hide Grouped;
    var items := |cols|;
    fields := new Field[items](_ => Field("", 0, 0));
    tables := new string[items + 1](_ => "");
    maps := new Mapped[items](_ => Mapped(0, 0, 0));
    usedFields, usedTables, maxDepth := 0, 1, 0;
    var idx := 0;
    GroupedNone();
    assert tables[..1] == [""] && cols[..0] == [] && fields[..0] == [] && maps[..0] == [];
    while idx < items
      invariant idx <= items && usedFields <= idx && usedTables <= tables.Length
      invariant Grouped(cols[..idx], fields[..usedFields], tables[..usedTables], maps[..idx], maxDepth)
    {
      usedFields, usedTables, maxDepth :=
        AddColumn(cols, idx, fields, usedFields, tables, usedTables, maps, maxDepth);
      idx := idx + 1;
    }
    assert cols[..items] == cols && maps[..items] == maps[..];
  }

  // ---- names that are also table aliases -------------------------------------------------------------------

  /** How many of the tables after the first are called by the name, but for case. */
  function Hits(tables: seq<string>, name: string): nat {
    if |tables| <= 1 then 0
    else Hits(tables[..|tables| - 1], name) + if Same(name, tables[|tables| - 1]) then 1 else 0
  }

  function Widen(f: Field, tables: seq<string>): Field {
    if |tables| > 2 then f.(used := f.used + Hits(tables, f.name)) else f
  }

  /** With more than one aliased table, a name that is also an alias counts as used once more, and so as duplicated. */
  method CountTableNames(fields: array<Field>, usedFields: nat, tables: array<string>, usedTables: nat)
    requires usedFields <= fields.Length && 1 <= usedTables <= tables.Length
    modifies fields
    ensures forall m :: 0 <= m < usedFields ==> fields[m] == Widen(old(fields[m]), tables[..usedTables])
  {
    if usedTables <= 2 { return; }
    var m := 0;
    while m < usedFields
      invariant m <= usedFields
      invariant forall k :: 0 <= k < m ==> fields[k] == Widen(old(fields[k]), tables[..usedTables])
      invariant forall k :: m <= k < usedFields ==> fields[k] == old(fields[k])
    {
      var t := 1;
      label Turn:
      while t < usedTables
        invariant 1 <= t <= usedTables
        invariant forall k :: 0 <= k < usedFields && k != m ==> fields[k] == old@Turn(fields[k])
        invariant fields[m] == old(fields[m]).(used := old(fields[m]).used + Hits(tables[..t], fields[m].name))
      {
        assert tables[..t + 1][..t] == tables[..t];
        if Same(fields[m].name, tables[t]) { fields[m] := fields[m].(used := fields[m].used + 1); }
        t := t + 1;
      }
      m := m + 1;
    }
  }

  /** What the second pass and the rows rely on. */
  ghost predicate Shape(cols: seq<Column>, fields: seq<Field>, maps: seq<Mapped>) {
    && |maps| == |cols|
    && (forall m :: 0 <= m < |fields| ==> fields[m].first < |cols| && fields[m].name == cols[fields[m].first].name)
    && (forall m, k :: 0 <= m < k < |fields| ==> fields[m].first < fields[k].first)
    && (forall i :: 0 <= i < |maps| ==> ShapedWell(cols, fields, maps[i], i))
  }

  ghost predicate ShapedWell(cols: seq<Column>, fields: seq<Field>, to: Mapped, i: nat) {
    && i < |cols| && to.col < |fields| && fields[to.col].first <= i && (fields[to.col].first == i <==> to.depth == 0)
    && to.depth < fields[to.col].used && to.depth == Count(cols[..i], fields[to.col].name)
    && Same(cols[i].name, fields[to.col].name)
    && (forall m :: 0 <= m < |fields| && (fields[m].first == i || Same(cols[i].name, fields[m].name)) ==> to.col == m)
  }

  lemma WidenedShape(cols: seq<Column>, fields: seq<Field>, maps: seq<Mapped>, tables: seq<string>, wide: seq<Field>)
    requires Grouping(cols, fields, maps) && |wide| == |fields|
    requires forall m :: 0 <= m < |fields| ==> wide[m] == Widen(fields[m], tables)
    ensures Shape(cols, wide, maps)
  {
    hide Hits;
    forall i | 0 <= i < |maps| ensures ShapedWell(cols, wide, maps[i], i) {
      Leaders(cols, fields, maps, i);
      CountSame(cols[..i], cols[i].name, fields[maps[i].col].name);
      forall m | 0 <= m < |wide| && Same(cols[i].name, fields[m].name) ensures maps[i].col == m {
        EarlierColumnOfField(cols, fields, maps, m, i);
      }
    }
  }

  // ---- names and values ------------------------------------------------------------------------------------

  /** The aliased tables come as columns of their own when there are several of them and some name is duplicated. */
  function ExtraFields(usedTables: nat, maxDepth: nat): nat {
    if usedTables > 2 && maxDepth > 1 then usedTables - 1 else 0
  }

  /** What each position of a record is: first the tables, then the fields, each once. */
  datatype Slot = TableSlot(t: nat) | FieldSlot(m: nat)

  function Layout(extra: nat, fields: nat): seq<Slot> {
    seq(extra, n requires n >= 0 => TableSlot(n + 1)) + seq(fields, m requires m >= 0 => FieldSlot(m))
  }

  function NameOf(slot: Slot, fields: seq<Field>, tables: seq<string>): string
    requires match slot case TableSlot(t) => t < |tables| case FieldSlot(m) => m < |fields|
  {
    match slot case TableSlot(t) => tables[t] case FieldSlot(m) => fields[m].name
  }

  /** Every position of the layout has its name. */
  ghost predicate NamesByLayout(fields: seq<Field>, tables: seq<string>, extra: nat, names: seq<string>) {
    var layout := Layout(extra, |fields|);
    && |names| == |layout|
    && forall p :: 0 <= p < |layout| ==>
        && (match layout[p] case TableSlot(t) => t < |tables| case FieldSlot(m) => m < |fields|)
        && names[p] == NameOf(layout[p], fields, tables)
  }

  datatype Cell = Null | Bool(b: bool) | Number(n: int) | Text(text: string) | Date(ms: int) | Bytes(bytes: seq<bv8>)

  /** A value of a record: a table's object, a duplicated field's array, or the cell of the one column. */
  datatype Value = TableObject(t: nat) | FieldArray(m: nat) | Scalar(cell: Cell)

  function ValueOf(slot: Slot, fields: seq<Field>, row: seq<Cell>): Value
    requires slot.FieldSlot? ==> slot.m < |fields| && fields[slot.m].first < |row|
  {
    match slot
    case TableSlot(t) => TableObject(t)
    case FieldSlot(m) => if fields[m].used > 1 then FieldArray(m) else Scalar(row[fields[m].first])
  }

  /** The first k fields are those whose first column lies before idx. */
  ghost predicate LedBefore(fields: seq<Field>, idx: nat, k: nat) {
    k <= |fields| && forall m :: 0 <= m < |fields| ==> (m < k <==> fields[m].first < idx)
  }

  /** Both passes go by this: a column takes a position exactly when it leads its field, and then the next one. */
  lemma NextLeader(cols: seq<Column>, fields: seq<Field>, maps: seq<Mapped>, idx: nat, k: nat)
    requires Shape(cols, fields, maps) && idx < |cols| && LedBefore(fields, idx, k)
    ensures maps[idx].col < |fields| && fields[maps[idx].col].used >= 1
    ensures fields[maps[idx].col].used == 1 ==> fields[maps[idx].col].first == idx
    ensures if fields[maps[idx].col].first == idx then maps[idx].col == k && LedBefore(fields, idx + 1, k + 1)
            else LedBefore(fields, idx + 1, k)
  {
    assert ShapedWell(cols, fields, maps[idx], idx);
    assert k < |fields| ==> forall m :: k < m < |fields| ==> fields[m].first > fields[k].first;
  }

  method FillNames(cols: seq<Column>, fields: array<Field>, usedFields: nat, tables: array<string>, usedTables: nat,
                   maps: array<Mapped>, maxDepth: nat)
    returns (names: array<string>, nameidx: nat)
    requires usedFields <= fields.Length && 1 <= usedTables <= tables.Length
    requires Shape(cols, fields[..usedFields], maps[..])
    ensures fresh(names) && nameidx == names.Length == usedFields + ExtraFields(usedTables, maxDepth)
    ensures NamesByLayout(fields[..usedFields], tables[..usedTables], ExtraFields(usedTables, maxDepth), names[..])
  {
    hide Shape;
    ghost var fs := fields[..usedFields];
    var extra := ExtraFields(usedTables, maxDepth);
    ghost var layout := Layout(extra, usedFields);
    names := new string[usedFields + extra](_ => "");
    nameidx := 0;
    if usedTables > 2 && maxDepth > 1 {
      var n := 1;
      while n < usedTables
        invariant 1 <= n <= usedTables && nameidx == n - 1
        invariant forall p :: 0 <= p < nameidx ==> names[p] == tables[p + 1]
      {
        names[nameidx] := tables[n];
        nameidx, n := nameidx + 1, n + 1;
      }
    }
    ghost var k := 0;
    var idx := 0;
    ShapeLengths(cols, fs, maps[..]);
    while idx < |cols|
      invariant idx <= |cols| && LedBefore(fs, idx, k) && nameidx == extra + k
      invariant forall p :: 0 <= p < extra ==> names[p] == tables[p + 1]
      invariant forall m :: 0 <= m < k ==> names[extra + m] == fs[m].name
    {
      NextLeader(cols, fs, maps[..], idx, k);
      var col := maps[idx].col;
      if fields[col].used > 1 {
        if fields[col].first == idx {
          names[nameidx] := fields[col].name;
          nameidx, k := nameidx + 1, k + 1;
        }
      } else {
        names[nameidx] := fields[col].name;
        nameidx, k := nameidx + 1, k + 1;
      }
      idx := idx + 1;
    }
  }

  lemma ShapeLengths(cols: seq<Column>, fields: seq<Field>, maps: seq<Mapped>)
    requires Shape(cols, fields, maps)
    ensures |maps| == |cols| && LedBefore(fields, 0, 0)
    ensures forall k: nat :: LedBefore(fields, |cols|, k) ==> k == |fields|
  {
    if fields != [] {
      assert fields[|fields| - 1].first < |cols|;
    }
  }

  // ---- arrays of duplicated fields -------------------------------------------------------------------------

  const INDEX_LIMIT := 0xffff_ffff

  datatype JsArray = JsArray(length: nat, elems: map<nat, Cell>, props: map<string, Cell>)

  const EMPTY := JsArray(0, map[], map[])

  datatype Key = Index(i: nat) | Length | Named(name: string)

  predicate Digits(s: string) {
    forall i :: 0 <= i < |s| ==> '0' <= s[i] <= '9'
  }

  function Decimal(s: string): nat
    requires Digits(s)
  {
    if s == "" then 0 else 10 * Decimal(s[..|s| - 1]) + (s[|s| - 1] as int - '0' as int)
  }

  /** How an array takes a property name: a canonical index, its length, or an ordinary property. */
  function KeyOf(alias: string): Key {
    if alias == "length" then Length
    else if alias != "" && Digits(alias) && (alias == "0" || alias[0] != '0') && Decimal(alias) < INDEX_LIMIT then
      Index(Decimal(alias))
    else Named(alias)
  }

  /** A string without superfluous zeros. */
  predicate Canonical(s: string) {
    s != "" && Digits(s) && (s == "0" || s[0] != '0')
  }

  lemma {:induction false} SpellingReads(n: nat)
    ensures Canonical(JsoxModel.Decimal(n)) && Decimal(JsoxModel.Decimal(n)) == n
    ensures n > 0 ==> JsoxModel.Decimal(n)[0] != '0'
    decreases n
  {
    var s := JsoxModel.Decimal(n);
    if n >= 10 {
      SpellingReads(n / 10);
      var prefix := JsoxModel.Decimal(n / 10);
      assert s[..|s| - 1] == prefix && s[0] == prefix[0];
    } else {
      assert s[..|s| - 1] == "" && Decimal("") == 0;
    }
  }

  lemma NextSpelling(n: nat, d: nat)
    requires n > 0 && d < 10
    ensures JsoxModel.Decimal(10 * n + d) == JsoxModel.Decimal(n) + [('0' as int + d) as char]
  {
    assert (10 * n + d) / 10 == n && (10 * n + d) % 10 == d;
  }

  lemma {:induction false} ReadingSpells(s: string)
    requires Canonical(s)
    ensures JsoxModel.Decimal(Decimal(s)) == s && (s[0] != '0' ==> Decimal(s) > 0)
  {
    var k := |s| - 1;
    var prefix, d := s[..k], s[k] as int - '0' as int;
    if k == 0 {
      assert prefix == "" && Decimal("") == 0;
      assert Decimal(s) == d && JsoxModel.Decimal(d) == [JsoxModel.Digit(d)];
    } else {
      assert Decimal(s) == 10 * Decimal(prefix) + d;
      ReadingSpells(prefix);
      NextSpelling(Decimal(prefix), d);
      assert s == prefix + [s[k]];
    }
  }

  /** The keys taken as indexes are exactly the decimal spellings of the numbers below the limit. */
  lemma IndexKeysAreSpellings(alias: string, n: nat)
    ensures KeyOf(alias) == Index(n) <==> n < INDEX_LIMIT && alias == JsoxModel.Decimal(n)
  {
    SpellingReads(n);
    if KeyOf(alias).Index? { ReadingSpells(alias); }
  }

  /** The length a value converts to, if it is a valid one; otherwise the assignment is refused. */
  type Lengths = Cell -> Option<nat>

  function SetKey(a: JsArray, key: Key, cell: Cell, lengthOf: Lengths): JsArray {
    match key
    case Index(i) => a.(elems := a.elems[i := cell], length := if i < a.length then a.length else i + 1)
    case Named(name) => a.(props := a.props[name := cell])
    case Length =>
      if lengthOf(cell).None? then a
      else
        var length := lengthOf(cell).value;
        a.(length := length, elems := map i | i in a.elems && i < length :: a.elems[i])
  }

  /** One column of a duplicated field: its table alias, and its cell. */
  datatype Entry = Entry(alias: string, cell: Cell)

  function Put(a: JsArray, e: Entry, depth: nat, lengthOf: Lengths): JsArray {
    SetKey(if e.alias == "" then a else SetKey(a, KeyOf(e.alias), e.cell, lengthOf), Index(depth), e.cell, lengthOf)
  }

  /** The array after the group's columns, in order: each is set under its alias, if it has one, and its position. */
  function Fill(group: seq<Entry>, lengthOf: Lengths): JsArray {
    if group == [] then EMPTY
    else
      var n := |group| - 1;
      Put(Fill(group[..n], lengthOf), group[n], n, lengthOf)
  }

  /** The columns of one name, in order. */
  function Group(cols: seq<Column>, row: seq<Cell>, name: string): seq<Entry>
    requires |row| == |cols|
  {
    if cols == [] then []
    else
      var n := |cols| - 1;
      Group(cols[..n], row[..n], name) + if Same(cols[n].name, name) then [Entry(cols[n].alias, row[n])] else []
  }

  lemma {:induction false} GroupCounts(cols: seq<Column>, row: seq<Cell>, name: string)
    requires |row| == |cols|
    ensures |Group(cols, row, name)| == Count(cols, name)
  {
    if cols != [] {
      var n := |cols| - 1;
      GroupCounts(cols[..n], row[..n], name);
    }
  }

  /** The group has the alias and the cell of each column of the name, in the order of the columns. */
  lemma {:induction false} GroupInOrder(cols: seq<Column>, row: seq<Cell>, name: string, i: nat)
    requires |row| == |cols| && i < |cols| && Same(cols[i].name, name)
    ensures var k := Count(cols[..i], name);
            k < |Group(cols, row, name)| == Count(cols, name)
            && Group(cols, row, name)[k] == Entry(cols[i].alias, row[i])
  {
    var n := |cols| - 1;
    GroupCounts(cols, row, name);
    GroupCounts(cols[..n], row[..n], name);
    if i < n {
      assert cols[..n][..i] == cols[..i];
      GroupInOrder(cols[..n], row[..n], name, i);
    }
  }

  lemma NextOfGroup(cols: seq<Column>, row: seq<Cell>, n: nat, name: string, lengthOf: Lengths)
    requires |row| == |cols| && n < |cols|
    ensures var before, now := Group(cols[..n], row[..n], name), Group(cols[..n + 1], row[..n + 1], name);
            if Same(cols[n].name, name) then
              Fill(now, lengthOf)
              == Put(Fill(before, lengthOf), Entry(cols[n].alias, row[n]), Count(cols[..n], name), lengthOf)
            else now == before
    ensures Count(cols[..n], name) == 0 ==> Fill(Group(cols[..n], row[..n], name), lengthOf) == EMPTY
  {
    assert cols[..n + 1][..n] == cols[..n] && row[..n + 1][..n] == row[..n];
    GroupCounts(cols[..n], row[..n], name);
    var before, e := Group(cols[..n], row[..n], name), Entry(cols[n].alias, row[n]);
    assert (before + [e])[..|before|] == before;
  }

  /** An alias that is an ordinary name is a property of the array, with the cell of the last column of that alias. */
  lemma {:induction false} NamedAliasKept(group: seq<Entry>, lengthOf: Lengths, d: nat)
    requires d < |group| && group[d].alias != "" && KeyOf(group[d].alias).Named?
    requires forall e :: d < e < |group| ==> group[e].alias != group[d].alias
    ensures var props, alias := Fill(group, lengthOf).props, group[d].alias;
            alias in props && props[alias] == group[d].cell
  {
    hide KeyOf;
    KeyIsName(group[d].alias);
    var n := |group| - 1;
    KeyIsName(group[n].alias);
    if d < n { NamedAliasKept(group[..n], lengthOf, d); }
  }

  lemma KeyIsName(alias: string)
    ensures KeyOf(alias).Named? ==> KeyOf(alias).name == alias
  {
  }

  /** And the array has no other properties. */
  lemma {:induction false} PropertiesAreAliases(group: seq<Entry>, lengthOf: Lengths, name: string)
    requires name in Fill(group, lengthOf).props
    ensures exists d :: 0 <= d < |group| && group[d].alias == name != ""
  {
    hide KeyOf;
    var n := |group| - 1;
    KeyIsName(group[n].alias);
    if group[n].alias != name || name == "" {
      PropertiesAreAliases(group[..n], lengthOf, name);
      var d :| 0 <= d < n && group[..n][d].alias == name != "";
      assert group[d].alias == name;
    }
  }

  // ---- when an array holds exactly its group ---------------------------------------------------------------

  /** Dense, in column order, and nothing else among the indexes. */
  ghost predicate Exact(a: JsArray, group: seq<Entry>) {
    && a.length == |group|
    && (forall i: nat :: i in a.elems <==> i < |group|)
    && forall i: nat :: i < |group| ==> a.elems[i] == group[i].cell
  }

  /** An alias does no harm at a position if, as a key, it is not the length, nor an index below the position or
      past the group. */
  predicate Harmless(alias: string, position: nat, count: nat) {
    alias == "" ||
    match KeyOf(alias) case Length => false case Index(i) => position <= i < count case Named(_) => true
  }

  predicate AllHarmless(group: seq<Entry>, count: nat) {
    forall d :: 0 <= d < |group| ==> Harmless(group[d].alias, d, count)
  }

  /** Half way through a group of `count` columns. */
  ghost predicate Filling(a: JsArray, group: seq<Entry>, count: nat) {
    && |group| <= a.length <= count
    && (forall i :: i in a.elems ==> i < count)
    && forall i: nat :: i < |group| ==> i in a.elems && a.elems[i] == group[i].cell
  }

  lemma {:induction false} HarmlessFills(group: seq<Entry>, count: nat, lengthOf: Lengths)
    requires AllHarmless(group, count) && |group| <= count
    ensures Filling(Fill(group, lengthOf), group, count)
  {
    if group != [] {
      var n := |group| - 1;
      assert forall d :: 0 <= d < n ==> group[..n][d] == group[d];
      HarmlessFills(group[..n], count, lengthOf);
      assert group == group[..n] + [group[n]];
      HarmlessPut(Fill(group[..n], lengthOf), group[..n], group[n], count, lengthOf);
    }
  }

  lemma HarmlessPut(a: JsArray, group: seq<Entry>, e: Entry, count: nat, lengthOf: Lengths)
    requires Filling(a, group, count) && Harmless(e.alias, |group|, count) && |group| < count
    ensures Filling(Put(a, e, |group|, lengthOf), group + [e], count)
  {
    hide KeyOf;
    var b := if e.alias == "" then a else SetKey(a, KeyOf(e.alias), e.cell, lengthOf);
    assert Filling(b, group, count);
  }

  /** Numbers in range convert to themselves. */
  ghost predicate LengthsAreNumbers(lengthOf: Lengths) {
    forall n: nat :: n <= INDEX_LIMIT ==> lengthOf(Number(n)) == Some(n)
  }

  function WithCells(aliases: seq<string>, cells: seq<Cell>): seq<Entry>
    requires |cells| == |aliases|
  {
    seq(|aliases|, i requires 0 <= i < |aliases| => Entry(aliases[i], cells[i]))
  }

  /** With a column aliased `length` and the largest length in every cell, the array is too long from there on. */
  lemma {:induction false} LengthSpoils(group: seq<Entry>, d: nat, lengthOf: Lengths)
    requires |group| < INDEX_LIMIT && d < |group| && KeyOf(group[d].alias) == Length && LengthsAreNumbers(lengthOf)
    requires forall i :: 0 <= i < |group| ==> group[i].cell == Number(INDEX_LIMIT)
    ensures Fill(group, lengthOf).length >= INDEX_LIMIT
  {
    var n := |group| - 1;
    assert lengthOf(Number(INDEX_LIMIT)) == Some(INDEX_LIMIT);
    if d < n { LengthSpoils(group[..n], d, lengthOf); }
  }

  predicate NoLength(group: seq<Entry>) {
    forall i :: 0 <= i < |group| ==> KeyOf(group[i].alias) != Length
  }

  /** An index past the group leaves the array too long. */
  lemma {:induction false} FarIndexSpoils(group: seq<Entry>, d: nat, far: nat, lengthOf: Lengths)
    requires d < |group| && group[d].alias != "" && KeyOf(group[d].alias) == Index(far) && NoLength(group)
    ensures Fill(group, lengthOf).length > far
  {
    var n := |group| - 1;
    if d < n { FarIndexSpoils(group[..n], d, far, lengthOf); }
  }

  /** An index below the position overwrites an earlier column's cell. */
  lemma {:induction false} LowIndexSpoils(group: seq<Entry>, d: nat, low: nat, lengthOf: Lengths)
    requires d < |group| && group[d].alias != "" && KeyOf(group[d].alias) == Index(low) && low < d && NoLength(group)
    requires forall i, j :: 0 <= i < j < |group| ==> group[i].cell != group[j].cell
    ensures low in Fill(group, lengthOf).elems && Fill(group, lengthOf).elems[low] != group[low].cell
  {
    var n := |group| - 1;
    if d < n { LowIndexSpoils(group[..n], d, low, lengthOf); }
  }

  /** The arrays of a duplicated field are exact whatever the cells if and only if every alias of the group is
      harmless. */
  lemma ExactExactlyWhen(aliases: seq<string>, lengthOf: Lengths)
    requires LengthsAreNumbers(lengthOf) && |aliases| < INDEX_LIMIT
    ensures (forall cells: seq<Cell> :: |cells| == |aliases| ==>
               Exact(Fill(WithCells(aliases, cells), lengthOf), WithCells(aliases, cells)))
       <==> (forall d :: 0 <= d < |aliases| ==> Harmless(aliases[d], d, |aliases|))
  {
    var n := |aliases|;
    if forall d :: 0 <= d < n ==> Harmless(aliases[d], d, n) {
      forall cells: seq<Cell> | |cells| == n
        ensures Exact(Fill(WithCells(aliases, cells), lengthOf), WithCells(aliases, cells))
      {
        HarmlessFills(WithCells(aliases, cells), n, lengthOf);
        FillingIsExact(Fill(WithCells(aliases, cells), lengthOf), WithCells(aliases, cells));
      }
    } else {
      var d :| 0 <= d < n && !Harmless(aliases[d], d, n);
      var cells := SpoilingCells(aliases, d, lengthOf);
      assert !Exact(Fill(WithCells(aliases, cells), lengthOf), WithCells(aliases, cells));
    }
  }

  lemma FillingIsExact(a: JsArray, group: seq<Entry>)
    requires Filling(a, group, |group|)
    ensures Exact(a, group)
  {
  }

  lemma SpoilingCells(aliases: seq<string>, d: nat, lengthOf: Lengths) returns (cells: seq<Cell>)
    requires LengthsAreNumbers(lengthOf) && |aliases| < INDEX_LIMIT
    requires d < |aliases| && !Harmless(aliases[d], d, |aliases|)
    ensures |cells| == |aliases| && !Exact(Fill(WithCells(aliases, cells), lengthOf), WithCells(aliases, cells))
  {
    hide Fill, KeyOf;
    if i :| 0 <= i < |aliases| && KeyOf(aliases[i]) == Length {
      cells := seq(|aliases|, _ => Number(INDEX_LIMIT));
      LengthSpoils(WithCells(aliases, cells), i, lengthOf);
    } else {
      cells := seq(|aliases|, i => Number(i));
      var group := WithCells(aliases, cells);
      var at := KeyOf(aliases[d]).i;
      if at < d { LowIndexSpoils(group, d, at, lengthOf); } else { FarIndexSpoils(group, d, at, lengthOf); }
    }
  }

  /** The aliases of the columns of one name, in order. */
  function GroupAliases(cols: seq<Column>, name: string): seq<string> {
    if cols == [] then []
    else
      var n := |cols| - 1;
      GroupAliases(cols[..n], name) + if Same(cols[n].name, name) then [cols[n].alias] else []
  }

  lemma WithOneMore(aliases: seq<string>, cells: seq<Cell>, alias: string, cell: Cell)
    requires |cells| == |aliases|
    ensures WithCells(aliases + [alias], cells + [cell]) == WithCells(aliases, cells) + [Entry(alias, cell)]
  {
  }

  lemma {:induction false} GroupIsWithCells(cols: seq<Column>, row: seq<Cell>, name: string) returns (cells: seq<Cell>)
    requires |row| == |cols|
    ensures |cells| == |GroupAliases(cols, name)|
    ensures Group(cols, row, name) == WithCells(GroupAliases(cols, name), cells)
  {
    cells := [];
    if cols != [] {
      var n := |cols| - 1;
      cells := GroupIsWithCells(cols[..n], row[..n], name);
      if Same(cols[n].name, name) {
        WithOneMore(GroupAliases(cols[..n], name), cells, cols[n].alias, row[n]);
        cells := cells + [row[n]];
      }
    }
  }

  /** Any cells can be those of a group. */
  lemma {:induction false} RowWithCells(cols: seq<Column>, name: string, cells: seq<Cell>) returns (row: seq<Cell>)
    requires |cells| == |GroupAliases(cols, name)|
    ensures |row| == |cols| && Group(cols, row, name) == WithCells(GroupAliases(cols, name), cells)
  {
    row := [];
    if cols != [] {
      hide Same, WithCells;
      var n := |cols| - 1;
      if Same(cols[n].name, name) {
        var k := |cells| - 1;
        var before := RowWithCells(cols[..n], name, cells[..k]);
        WithOneMore(GroupAliases(cols[..n], name), cells[..k], cols[n].alias, cells[k]);
        row := before + [cells[k]];
        assert row[..n] == before && cells[..k] + [cells[k]] == cells;
      } else {
        var before := RowWithCells(cols[..n], name, cells);
        row := before + [Null];
        assert row[..n] == before;
      }
    }
  }

  /** A duplicated field's array holds exactly the cells of its columns, in every row there can be, if and only if
      no alias of these columns names the array's length or an index below the column's place or past the last. */
  lemma ArraysExactExactlyWhen(cols: seq<Column>, name: string, lengthOf: Lengths)
    requires LengthsAreNumbers(lengthOf) && |GroupAliases(cols, name)| < INDEX_LIMIT
    ensures (forall row: seq<Cell> :: |row| == |cols| ==>
               Exact(Fill(Group(cols, row, name), lengthOf), Group(cols, row, name)))
       <==> (forall d :: 0 <= d < |GroupAliases(cols, name)| ==>
               Harmless(GroupAliases(cols, name)[d], d, |GroupAliases(cols, name)|))
  {
    hide Fill, Exact, Harmless, Group, LengthsAreNumbers, WithCells;
    var aliases := GroupAliases(cols, name);
    ExactExactlyWhen(aliases, lengthOf);
    if forall d :: 0 <= d < |aliases| ==> Harmless(aliases[d], d, |aliases|) {
      forall row: seq<Cell> | |row| == |cols|
        ensures Exact(Fill(Group(cols, row, name), lengthOf), Group(cols, row, name))
      {
        var cells := GroupIsWithCells(cols, row, name);
      }
    } else {
      var cells :| |cells| == |aliases|
                   && !Exact(Fill(WithCells(aliases, cells), lengthOf), WithCells(aliases, cells));
      var row := RowWithCells(cols, name, cells);
    }
  }

  /** For instance `id` of two tables, the second called `0`: the first table's cell is lost. */
  lemma NumericAliasSpoils(lengthOf: Lengths)
    ensures var group := Group([Column("id", "a"), Column("id", "0")], [Number(1), Number(2)], "id");
            Fill(group, lengthOf).elems == map[0 := Number(2), 1 := Number(2)] && !Exact(Fill(group, lengthOf), group)
  {
    var first, both := [Entry("a", Number(1))], [Entry("a", Number(1)), Entry("0", Number(2))];
    var cols, row := [Column("id", "a"), Column("id", "0")], [Number(1), Number(2)];
    assert cols[..1] == [cols[0]] && row[..1] == [row[0]] && [cols[0]][..0] == [] && [row[0]][..0] == [];
    assert Group([cols[0]], [row[0]], "id") == first;
    assert Group(cols, row, "id") == both;
    assert KeyOf("0") == Index(0) by { assert "0"[..0] == "" && Decimal("0") == 0; }
    assert first[..0] == [] && both[..1] == first;
    assert Fill(first, lengthOf) == Put(EMPTY, first[0], 0, lengthOf);
  }

  // ---- one row ---------------------------------------------------------------------------------------------

  /** What a table's object holds after the first n columns: the cells of its columns of duplicated fields. */
  function TableCells(fields: seq<Field>, maps: seq<Mapped>, row: seq<Cell>, t: nat, n: nat): map<string, Cell>
    requires n <= |maps| == |row| && forall i :: 0 <= i < |maps| ==> maps[i].col < |fields|
  {
    if n == 0 then map[]
    else
      var before, f := TableCells(fields, maps, row, t, n - 1), fields[maps[n - 1].col];
      if maps[n - 1].table == t && f.used > 1 then before[f.name := row[n - 1]] else before
  }

  /** Column `last` is the last one, of the first n, of a duplicated field m in table t. */
  ghost predicate IsLast(fields: seq<Field>, maps: seq<Mapped>, t: nat, n: nat, m: nat, last: nat)
    requires n <= |maps| && m < |fields|
  {
    && last < n && fields[m].used > 1 && maps[last].col == m && maps[last].table == t
    && forall i :: last < i < n ==> maps[i].col != m || maps[i].table != t
  }

  ghost predicate HoldsLast(fields: seq<Field>, maps: seq<Mapped>, row: seq<Cell>, t: nat, n: nat, m: nat)
    requires n <= |maps| == |row| && m < |fields| && forall i :: 0 <= i < |maps| ==> maps[i].col < |fields|
  {
    var cells := TableCells(fields, maps, row, t, n);
    && (fields[m].name in cells ==> exists last: nat :: IsLast(fields, maps, t, n, m, last))
    && forall last: nat :: IsLast(fields, maps, t, n, m, last) ==>
        fields[m].name in cells && cells[fields[m].name] == row[last]
  }

  /** The object of a table has the duplicated names that occur in the table, each with its last such column's cell. */
  lemma {:induction false} TableHoldsItsColumns(cols: seq<Column>, fields: seq<Field>, maps: seq<Mapped>,
                                                row: seq<Cell>, t: nat, n: nat, m: nat)
    requires Shape(cols, fields, maps) && n <= |maps| == |row| && m < |fields|
    requires forall i :: 0 <= i < |maps| ==> maps[i].col < |fields|
    ensures HoldsLast(fields, maps, row, t, n, m)
  {
    if n > 0 {
      TableHoldsItsColumns(cols, fields, maps, row, t, n - 1, m);
      NamesDiffer(cols, fields, maps, m, maps[n - 1].col);
      StillHoldsLast(fields, maps, row, t, n, m);
    }
  }

  lemma StillHoldsLast(fields: seq<Field>, maps: seq<Mapped>, row: seq<Cell>, t: nat, n: nat, m: nat)
    requires 0 < n <= |maps| == |row| && m < |fields| && forall i :: 0 <= i < |maps| ==> maps[i].col < |fields|
    requires fields[m].name == fields[maps[n - 1].col].name ==> m == maps[n - 1].col
    requires HoldsLast(fields, maps, row, t, n - 1, m)
    ensures HoldsLast(fields, maps, row, t, n, m)
  {
    hide IsLast, TableCells;
    CellsMove(fields, maps, row, t, n, m);
    LastMoves(fields, maps, t, n, m);
    if maps[n - 1].col == m && maps[n - 1].table == t && fields[m].used > 1 {
      assert IsLast(fields, maps, t, n, m, n - 1);
    } else if fields[m].name in TableCells(fields, maps, row, t, n) {
      var last: nat :| IsLast(fields, maps, t, n - 1, m, last);
      assert IsLast(fields, maps, t, n, m, last);
    }
  }

  lemma CellsMove(fields: seq<Field>, maps: seq<Mapped>, row: seq<Cell>, t: nat, n: nat, m: nat)
    requires 0 < n <= |maps| == |row| && m < |fields| && forall i :: 0 <= i < |maps| ==> maps[i].col < |fields|
    requires fields[m].name == fields[maps[n - 1].col].name ==> m == maps[n - 1].col
    ensures var here := maps[n - 1].col == m && maps[n - 1].table == t && fields[m].used > 1;
            var before, cells := TableCells(fields, maps, row, t, n - 1), TableCells(fields, maps, row, t, n);
            if here then fields[m].name in cells && cells[fields[m].name] == row[n - 1]
            else if fields[m].name in before then
              fields[m].name in cells && cells[fields[m].name] == before[fields[m].name]
            else fields[m].name !in cells
  {
  }

  lemma LastMoves(fields: seq<Field>, maps: seq<Mapped>, t: nat, n: nat, m: nat)
    requires 0 < n <= |maps| && m < |fields|
    ensures var here := maps[n - 1].col == m && maps[n - 1].table == t && fields[m].used > 1;
            forall last: nat :: IsLast(fields, maps, t, n, m, last)
                           <==> if here then last == n - 1 else IsLast(fields, maps, t, n - 1, m, last)
  {
  }

  lemma NamesDiffer(cols: seq<Column>, fields: seq<Field>, maps: seq<Mapped>, m: nat, k: nat)
    requires Shape(cols, fields, maps) && m < |fields| && k < |fields|
    ensures fields[m].name == fields[k].name ==> m == k
  {
    var i := fields[m].first;
    assert ShapedWell(cols, fields, maps[i], i);
  }

  /** The arrays of the fields met so far. */
  ghost predicate Filled(cols: seq<Column>, fields: seq<Field>, row: seq<Cell>, arrays: seq<JsArray>, n: nat,
                         lengthOf: Lengths)
    requires n <= |cols| == |row| && |arrays| == |fields|
  {
    forall m :: 0 <= m < |fields| && fields[m].used > 1 && fields[m].first < n ==>
      arrays[m] == Fill(Group(cols[..n], row[..n], fields[m].name), lengthOf)
  }

  /** One column into the array of its field. */
  function PutInArray(fields: seq<Field>, to: Mapped, c: Column, cell: Cell, i: nat, arrays: seq<JsArray>,
                      lengthOf: Lengths)
    : seq<JsArray>
    requires to.col < |fields| == |arrays|
  {
    if fields[to.col].used > 1 then
      arrays[to.col := Put(if fields[to.col].first == i then EMPTY else arrays[to.col], Entry(c.alias, cell),
                           to.depth, lengthOf)]
    else arrays
  }

  lemma FilledGrows(cols: seq<Column>, fields: seq<Field>, maps: seq<Mapped>, row: seq<Cell>, arrays: seq<JsArray>,
                    n: nat, lengthOf: Lengths)
    requires Shape(cols, fields, maps) && n < |cols| == |row| && |arrays| == |fields|
    requires Filled(cols, fields, row, arrays, n, lengthOf)
    ensures maps[n].col < |fields|
    ensures Filled(cols, fields, row, PutInArray(fields, maps[n], cols[n], row[n], n, arrays, lengthOf), n + 1,
                   lengthOf)
  {
    hide Fill, Group, Put;
    var to, now := maps[n], PutInArray(fields, maps[n], cols[n], row[n], n, arrays, lengthOf);
    assert ShapedWell(cols, fields, to, n);
    forall m | 0 <= m < |fields| && fields[m].used > 1 && fields[m].first < n + 1
      ensures now[m] == Fill(Group(cols[..n + 1], row[..n + 1], fields[m].name), lengthOf)
    {
      NextOfGroup(cols, row, n, fields[m].name, lengthOf);
    }
  }

  /** The tables and the first k fields have their values. */
  ghost predicate ValuesSoFar(fields: seq<Field>, row: seq<Cell>, values: seq<Value>, extra: nat, k: nat) {
    && k <= |fields| && |values| == extra + |fields|
    && (forall p :: 0 <= p < extra ==> values[p] == TableObject(p + 1))
    && forall m :: 0 <= m < k ==> fields[m].first < |row| && values[extra + m] == ValueOf(FieldSlot(m), fields, row)
  }

  ghost predicate BoxesSoFar(fields: seq<Field>, maps: seq<Mapped>, row: seq<Cell>, boxes: seq<map<string, Cell>>,
                             n: nat)
    requires n <= |maps| == |row| && forall i :: 0 <= i < |maps| ==> maps[i].col < |fields|
  {
    forall t :: 0 <= t < |boxes| ==> boxes[t] == TableCells(fields, maps, row, t, n)
  }

  /** A duplicated field's cell goes to its table's object and, under its alias and its depth, to the field's array. */
  method StoreDuplicate(f: Field, to: Mapped, c: Column, val: Cell, idx: nat, extra: nat, arrays: array<JsArray>,
                        boxes: array<map<string, Cell>>, lengthOf: Lengths)
    requires to.col < arrays.Length && to.table < boxes.Length
    modifies arrays, boxes
    ensures arrays[..] == old(arrays[..])[to.col := Put(if f.first == idx then EMPTY else old(arrays[to.col]),
                                                        Entry(c.alias, val), to.depth, lengthOf)]
    ensures extra > 0 ==> boxes[..] == old(boxes[..])[to.table := old(boxes[to.table])[f.name := val]]
  {
    if f.first == idx { arrays[to.col] := EMPTY; }
    var box := if extra > 0 then to.table else 0;
    boxes[box] := boxes[box][f.name := val];
    arrays[to.col] := Put(arrays[to.col], Entry(c.alias, val), to.depth, lengthOf);
  }

  /** One column of a row: `validx` positions are filled, k of them by fields. */
  method StoreCell(cols: seq<Column>, fields: array<Field>, ghost usedFields: nat, maps: array<Mapped>, row: seq<Cell>,
                   lengthOf: Lengths, idx: nat, extra: nat, values: array<Value>, arrays: array<JsArray>,
                   boxes: array<map<string, Cell>>, validx: nat, ghost k: nat)
    returns (now: nat, ghost led: nat)
    requires usedFields <= fields.Length && arrays.Length == usedFields && idx < |cols| == |row|
    requires Shape(cols, fields[..usedFields], maps[..]) && maps.Length == |cols|
    requires boxes.Length > 0 && forall i :: 0 <= i < maps.Length ==>
        maps[i].table < boxes.Length && maps[i].col < usedFields
    requires values.Length == usedFields + extra && validx == extra + k && LedBefore(fields[..usedFields], idx, k)
    requires ValuesSoFar(fields[..usedFields], row, values[..], extra, k)
    requires Filled(cols, fields[..usedFields], row, arrays[..], idx, lengthOf)
    requires extra > 0 ==> BoxesSoFar(fields[..usedFields], maps[..], row, boxes[..], idx)
    modifies values, arrays, boxes
    ensures now == extra + led && LedBefore(fields[..usedFields], idx + 1, led)
    ensures ValuesSoFar(fields[..usedFields], row, values[..], extra, led)
    ensures Filled(cols, fields[..usedFields], row, arrays[..], idx + 1, lengthOf)
    ensures extra > 0 ==> BoxesSoFar(fields[..usedFields], maps[..], row, boxes[..], idx + 1)
  {
    hide Shape, Fill, Group, Put, Filled, LedBefore, TableCells, BoxesSoFar;
    ghost var fs, ms, were, boxed := fields[..usedFields], maps[..], arrays[..], boxes[..];
    NextLeader(cols, fs, ms, idx, k);
    FilledGrows(cols, fs, ms, row, were, idx, lengthOf);
    var to, val := maps[idx], row[idx];
    var f := fields[to.col];
    now, led := validx, k;
    if f.used > 1 {
      if f.first == idx {
        values[now] := FieldArray(to.col);
        now, led := now + 1, led + 1;
      }
      StoreDuplicate(f, to, cols[idx], val, idx, extra, arrays, boxes, lengthOf);
    } else {
      values[now] := Scalar(val);
      now, led := now + 1, led + 1;
    }
    assert arrays[..] == PutInArray(fs, to, cols[idx], val, idx, were, lengthOf);
    if extra > 0 {
      BoxGrows(fs, ms, row, boxed, idx);
      assert boxes[..] == if f.used > 1 then boxed[to.table := boxed[to.table][f.name := val]] else boxed;
    }
  }

  lemma BoxGrows(fields: seq<Field>, maps: seq<Mapped>, row: seq<Cell>, boxes: seq<map<string, Cell>>, n: nat)
    requires n < |maps| == |row|
    requires forall i :: 0 <= i < |maps| ==> maps[i].col < |fields| && maps[i].table < |boxes|
    requires BoxesSoFar(fields, maps, row, boxes, n)
    ensures var to, f := maps[n], fields[maps[n].col];
            BoxesSoFar(fields, maps, row,
                       if f.used > 1 then boxes[to.table := boxes[to.table][f.name := row[n]]] else boxes, n + 1)
  {
  }

  /** One row.  `arrays` are the arrays of the fields, `boxes` the objects of the tables; `values` is reused from row to
      row. */
  method FillRow(cols: seq<Column>, fields: array<Field>, usedFields: nat, usedTables: nat, maps: array<Mapped>,
                 maxDepth: nat, row: seq<Cell>, lengthOf: Lengths, values: array<Value>)
    returns (validx: nat, arrays: array<JsArray>, boxes: array<map<string, Cell>>)
    requires usedFields <= fields.Length && usedTables >= 1 && |row| == |cols| == maps.Length
    requires Shape(cols, fields[..usedFields], maps[..])
    requires forall i :: 0 <= i < maps.Length ==> maps[i].table < usedTables && maps[i].col < usedFields
    requires values.Length == usedFields + ExtraFields(usedTables, maxDepth)
    modifies values
    ensures fresh(arrays) && fresh(boxes) && arrays.Length == usedFields && boxes.Length == usedTables
    ensures validx == values.Length
    ensures ValuesSoFar(fields[..usedFields], row, values[..], ExtraFields(usedTables, maxDepth), usedFields)
    ensures Filled(cols, fields[..usedFields], row, arrays[..], |cols|, lengthOf)
    ensures ExtraFields(usedTables, maxDepth) > 0 ==>
              BoxesSoFar(fields[..usedFields], maps[..], row, boxes[..], |cols|)
  {
    hide Shape, Fill, Group, Put, Filled, LedBefore;
    ghost var fs := fields[..usedFields];
    var extra := ExtraFields(usedTables, maxDepth);
    validx := 0;
    if usedTables > 2 && maxDepth > 1 {
      var n := 1;
      while n < usedTables
        invariant 1 <= n <= usedTables && validx == n - 1
        invariant forall p :: 0 <= p < validx ==> values[p] == TableObject(p + 1)
      {
        values[validx] := TableObject(n);
        validx, n := validx + 1, n + 1;
      }
    }
    arrays := new JsArray[usedFields](_ => EMPTY);
    boxes := new map<string, Cell>[usedTables](_ => map[]);
    ghost var k := 0;
    var idx := 0;
    ShapeLengths(cols, fs, maps[..]);
    FilledNone(cols, fs, row, arrays[..], lengthOf);
    while idx < |cols|
      invariant idx <= |cols| && LedBefore(fs, idx, k) && validx == extra + k
      invariant ValuesSoFar(fs, row, values[..], extra, k)
      invariant Filled(cols, fs, row, arrays[..], idx, lengthOf)
      invariant extra > 0 ==> BoxesSoFar(fs, maps[..], row, boxes[..], idx)
    {
      validx, k := StoreCell(cols, fields, usedFields, maps, row, lengthOf, idx, extra, values, arrays, boxes, validx,
                             k);
      idx := idx + 1;
    }
  }

  lemma FilledNone(cols: seq<Column>, fields: seq<Field>, row: seq<Cell>, arrays: seq<JsArray>, lengthOf: Lengths)
    requires |cols| == |row| && |arrays| == |fields|
    ensures Filled(cols, fields, row, arrays, 0, lengthOf)
  {
  }

  // ---- the whole result ------------------------------------------------------------------------------------

  datatype Record = Record(names: seq<string>, values: seq<Value>, arrays: seq<JsArray>, tables: seq<map<string, Cell>>)

  /** The columns' fields, the same with the names that are also aliases counted as duplicated, the aliases, and the
      number of table positions. */
  datatype Frame = Frame(fields: seq<Field>, wide: seq<Field>, maps: seq<Mapped>, tables: seq<string>, extra: nat)

  ghost predicate Framed(cols: seq<Column>, f: Frame) {
    && Grouping(cols, f.fields, f.maps) && |f.wide| == |f.fields|
    && (forall m :: 0 <= m < |f.wide| ==> f.wide[m] == Widen(f.fields[m], f.tables))
    && f.tables == Aliases(cols) && InTables(cols, f.tables, f.maps)
    && f.extra == (if |f.tables| > 2 && SomeDuplicate(f.maps) then |f.tables| - 1 else 0)
  }

  /** Names and values are equally long, one position a table or field, and each position is the same thing in both. */
  ghost predicate RecordOf(cols: seq<Column>, f: Frame, row: seq<Cell>, record: Record, lengthOf: Lengths)
    requires |row| == |cols|
  {
    && var layout := Layout(f.extra, |f.wide|);
    && |record.names| == |record.values| == |layout|
    && (forall p :: 0 <= p < |layout| ==>
          && (match layout[p] case TableSlot(t) => t < |f.tables|
                              case FieldSlot(m) => m < |f.wide| && f.wide[m].first < |row|)
          && record.names[p] == NameOf(layout[p], f.wide, f.tables)
          && record.values[p] == ValueOf(layout[p], f.wide, row))
    && |record.arrays| == |f.wide| && Filled(cols, f.wide, row, record.arrays, |cols|, lengthOf)
    && |record.tables| == |f.tables| && |f.maps| == |cols|
    && (forall i :: 0 <= i < |f.maps| ==> f.maps[i].col < |f.wide|)
    && (f.extra > 0 ==> BoxesSoFar(f.wide, f.maps, row, record.tables, |cols|))
  }

  lemma FrameIsShaped(cols: seq<Column>, f: Frame)
    requires Framed(cols, f)
    ensures Shape(cols, f.wide, f.maps) && |f.tables| >= 1
    ensures forall i :: 0 <= i < |f.maps| ==> f.maps[i].table < |f.tables| && f.maps[i].col < |f.wide|
  {
    WidenedShape(cols, f.fields, f.maps, f.tables, f.wide);
    AliasesOnce(cols);
    assert forall i :: 0 <= i < |f.maps| ==> ShapedWell(cols, f.wide, f.maps[i], i);
  }

  method BuildQueryResult(cols: seq<Column>, rows: seq<seq<Cell>>, lengthOf: Lengths)
    returns (records: seq<Record>, ghost f: Frame)
    requires forall r :: 0 <= r < |rows| ==> |rows[r]| == |cols|
    ensures Framed(cols, f) && |records| == |rows|
    ensures forall r :: 0 <= r < |rows| ==> RecordOf(cols, f, rows[r], records[r], lengthOf)
  {
    hide Grouping, Shape, InTables, Filled, BoxesSoFar, Widen, RecordOf, NamesByLayout, ValuesSoFar;
    var fields, usedFields, tables, usedTables, maps, maxDepth := GroupColumns(cols);
    ghost var narrow := fields[..usedFields];
    CountTableNames(fields, usedFields, tables, usedTables);
    var extra := ExtraFields(usedTables, maxDepth);
    f := Frame(narrow, fields[..usedFields], maps[..], tables[..usedTables], extra);
    FrameIsShaped(cols, f);
    var names, nameidx := FillNames(cols, fields, usedFields, tables, usedTables, maps, maxDepth);
    var values := new Value[usedFields + extra](_ => Scalar(Null));
    records := [];
    while |records| < |rows|
      invariant |records| <= |rows|
      invariant forall r :: 0 <= r < |records| ==> RecordOf(cols, f, rows[r], records[r], lengthOf)
      invariant f == Frame(narrow, fields[..usedFields], maps[..], tables[..usedTables], extra)
      invariant NamesByLayout(f.wide, f.tables, extra, names[..])
      decreases |rows| - |records|
    {
      var row := rows[|records|];
      var validx, arrays, boxes :=
        FillRow(cols, fields, usedFields, usedTables, maps, maxDepth, row, lengthOf, values);
      var record := Record(names[..nameidx], values[..validx], arrays[..], boxes[..]);
      assert names[..nameidx] == names[..] && values[..validx] == values[..];
      RecordMade(cols, f, row, record, lengthOf);
      records := records + [record];
    }
  }

  lemma RecordMade(cols: seq<Column>, f: Frame, row: seq<Cell>, record: Record, lengthOf: Lengths)
    requires |row| == |cols| && NamesByLayout(f.wide, f.tables, f.extra, record.names)
    requires ValuesSoFar(f.wide, row, record.values, f.extra, |f.wide|)
    requires |record.arrays| == |f.wide| && Filled(cols, f.wide, row, record.arrays, |cols|, lengthOf)
    requires |record.tables| == |f.tables| && |f.maps| == |cols|
    requires forall i :: 0 <= i < |f.maps| ==> f.maps[i].col < |f.wide|
    requires f.extra > 0 ==> BoxesSoFar(f.wide, f.maps, row, record.tables, |cols|)
    ensures RecordOf(cols, f, row, record, lengthOf)
  {
    hide Filled, BoxesSoFar, ValuesSoFar, NameOf, ValueOf;
    ValuesByLayout(f.wide, row, record.values, f.extra);
  }

  lemma ValuesByLayout(fields: seq<Field>, row: seq<Cell>, values: seq<Value>, extra: nat)
    requires ValuesSoFar(fields, row, values, extra, |fields|)
    ensures var layout := Layout(extra, |fields|);
            && |values| == |layout|
            && forall p :: 0 <= p < |layout| ==>
                 && (layout[p].FieldSlot? ==> layout[p].m < |fields| && fields[layout[p].m].first < |row|)
                 && values[p] == ValueOf(layout[p], fields, row)
  {
    var layout := Layout(extra, |fields|);
    forall p | 0 <= p < |layout|
      ensures layout[p].FieldSlot? ==> layout[p].m < |fields| && fields[layout[p].m].first < |row|
      ensures values[p] == ValueOf(layout[p], fields, row)
    {
      if p >= extra {
        var m := p - extra;
        assert layout[p] == FieldSlot(m) && values[extra + m] == ValueOf(FieldSlot(m), fields, row);
      }
    }
  }
}
