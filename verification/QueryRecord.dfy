/** What a record says of its row, in terms of the columns alone: which name goes with which cell. */
module QueryRecord {
  import opened Options
  import opened QueryResult

  // ---- single columns ----------------------------------------------------------------------------------------

  predicate SeveralAliases(cols: seq<Column>) {
    exists i, j :: 0 <= i < j < |cols| && cols[i].alias != "" && cols[j].alias != "" && cols[i].alias != cols[j].alias
  }

  predicate IsAlias(cols: seq<Column>, name: string) {
    exists j :: 0 <= j < |cols| && cols[j].alias != "" && Same(name, cols[j].alias)
  }

  predicate OnlyOne(cols: seq<Column>, i: nat)
    requires i < |cols|
  {
    forall j :: 0 <= j < |cols| && Same(cols[j].name, cols[i].name) ==> j == i
  }

  /** The column's name occurs once, and is not also the alias of a table when there are several. */
  predicate Single(cols: seq<Column>, i: nat)
    requires i < |cols|
  {
    OnlyOne(cols, i) && !(SeveralAliases(cols) && IsAlias(cols, cols[i].name))
  }

  /** The first column of its name. */
  predicate Leads(cols: seq<Column>, i: nat)
    requires i < |cols|
  {
    forall j :: 0 <= j < i ==> !Same(cols[j].name, cols[i].name)
  }

  lemma CountTwo(cols: seq<Column>, i: nat, j: nat, name: string)
    requires i < j < |cols| && Same(cols[i].name, name) && Same(cols[j].name, name)
    ensures Count(cols, name) >= 2
  {
    CountGrows(cols[..j], i, name);
    CountGrows(cols, j, name);
  }

  lemma {:induction false} AnotherOne(cols: seq<Column>, i: nat, name: string) returns (j: nat)
    requires i < |cols| && Same(cols[i].name, name) && Count(cols, name) >= 2
    ensures j < |cols| && j != i && Same(cols[j].name, name)
  {
    var k := |cols| - 1;
    if i == k {
      j := CountFinds(cols[..k], name);
    } else if Same(cols[k].name, name) {
      j := k;
    } else {
      j := AnotherOne(cols[..k], i, name);
    }
  }

  lemma OnlyOneCounts(cols: seq<Column>, i: nat)
    requires i < |cols|
    ensures OnlyOne(cols, i) <==> Count(cols, cols[i].name) == 1
  {
    var name := cols[i].name;
    CountGrows(cols, i, name);
    if Count(cols, name) >= 2 {
      var j := AnotherOne(cols, i, name);
    } else {
      forall j | 0 <= j < |cols| && Same(cols[j].name, name) ensures j == i {
        if j < i { CountTwo(cols, j, i, name); }
        if i < j { CountTwo(cols, i, j, name); }
      }
    }
  }

  lemma {:induction false} HitsMean(tables: seq<string>, name: string)
    ensures Hits(tables, name) > 0 <==> exists t :: 1 <= t < |tables| && Same(name, tables[t])
  {
    if |tables| > 1 {
      var k := |tables| - 1;
      HitsMean(tables[..k], name);
      assert forall t :: 1 <= t < k ==> tables[..k][t] == tables[t];
    }
  }

  lemma AliasesMean(cols: seq<Column>, name: string)
    ensures |Aliases(cols)| > 2 <==> SeveralAliases(cols)
    ensures Hits(Aliases(cols), name) > 0 <==> IsAlias(cols, name)
  {
    hide Same;
    var t := Aliases(cols);
    AliasesOnce(cols);
    HitsMean(t, name);
    if |t| > 2 {
      assert t[1] in t && t[2] in t && t[1] != t[0] && t[2] != t[0];
      var i :| 0 <= i < |cols| && cols[i].alias == t[1];
      var j :| 0 <= j < |cols| && cols[j].alias == t[2];
      assert SeveralAliases(cols);
    }
    if i, j :| 0 <= i < j < |cols| && cols[i].alias != "" && cols[j].alias != "" && cols[i].alias != cols[j].alias {
      assert cols[i].alias in t && cols[j].alias in t;
      var a :| 0 <= a < |t| && t[a] == cols[i].alias;
      var b :| 0 <= b < |t| && t[b] == cols[j].alias;
    }
    if k :| 1 <= k < |t| && Same(name, t[k]) {
      assert t[k] in t && t[k] != t[0];
    }
    if j :| 0 <= j < |cols| && cols[j].alias != "" && Same(name, cols[j].alias) {
      assert cols[j].alias in t;
      var k :| 0 <= k < |t| && t[k] == cols[j].alias;
    }
  }

  /** A field counts as used once exactly when its column is single. */
  lemma UsedOnce(cols: seq<Column>, f: Frame, m: nat)
    requires Framed(cols, f) && m < |f.wide|
    ensures f.wide[m].first < |cols| && f.wide[m].name == cols[f.wide[m].first].name && f.wide[m].used >= 1
    ensures f.wide[m].used == 1 <==> Single(cols, f.wide[m].first)
    ensures Leads(cols, f.wide[m].first)
  {
    hide Same;
    var i := f.fields[m].first;
    assert f.wide[m] == Widen(f.fields[m], f.tables);
    OnlyOneCounts(cols, i);
    CountGrows(cols, i, cols[i].name);
    SameIsSame(cols[i].name);
    AliasesMean(cols, cols[i].name);
    forall j | 0 <= j < i ensures !Same(cols[j].name, cols[i].name) {
      if Same(cols[j].name, cols[i].name) { EarlierColumnOfField(cols, f.fields, f.maps, m, j); }
    }
  }

  lemma SameIsSame(name: string)
    ensures Same(name, name)
  {
  }

  /** Every leading column leads a field. */
  lemma FieldOf(cols: seq<Column>, f: Frame, i: nat) returns (m: nat)
    requires Framed(cols, f) && i < |cols| && Leads(cols, i)
    ensures m < |f.wide| && f.wide[m].first == i
  {
    hide Same, Widen;
    m := f.maps[i].col;
    assert MappedWell(cols, f.fields, f.maps[i], i);
    assert f.wide[m] == Widen(f.fields[m], f.tables);
    WidenKeeps(f.fields[m], f.tables);
  }

  lemma WidenKeeps(field: Field, tables: seq<string>)
    ensures Widen(field, tables).first == field.first && Widen(field, tables).name == field.name
  {
  }

  lemma SingleLeads(cols: seq<Column>, i: nat)
    requires i < |cols| && Single(cols, i)
    ensures Leads(cols, i)
  {
  }

  // ---- names and values --------------------------------------------------------------------------------------

  /** What a record has for field `m`. */
  lemma FieldAt(cols: seq<Column>, f: Frame, row: seq<Cell>, record: Record, lengthOf: Lengths, m: nat)
    requires |row| == |cols| && RecordOf(cols, f, row, record, lengthOf) && m < |f.wide| && f.wide[m].first < |cols|
    ensures var p, field := f.extra + m, f.wide[m];
            && p < |record.names| == |record.values| && m < |record.arrays|
            && record.names[p] == field.name
            && record.values[p] == (if field.used > 1 then FieldArray(m) else Scalar(row[field.first]))
            && (field.used > 1 ==> record.arrays[m] == Fill(Group(cols, row, field.name), lengthOf))
  {
    hide BoxesSoFar, Fill, Group;
    assert Layout(f.extra, |f.wide|)[f.extra + m] == FieldSlot(m);
    assert cols[..|cols|] == cols && row[..|cols|] == row;
  }

  /** Which field or table a position is. */
  lemma SlotAt(cols: seq<Column>, f: Frame, row: seq<Cell>, record: Record, lengthOf: Lengths, p: nat)
    requires |row| == |cols| && RecordOf(cols, f, row, record, lengthOf) && p < |record.values|
    ensures p < |record.names| == f.extra + |f.wide|
    ensures if p < f.extra then record.values[p] == TableObject(p + 1) else !record.values[p].TableObject?
  {
    hide BoxesSoFar, Filled;
    var slot := Layout(f.extra, |f.wide|)[p];
    assert record.values[p] == ValueOf(slot, f.wide, row);
  }

  /** The cell of a single column is at a position that has its name. */
  lemma SingleColumnsAreThere(cols: seq<Column>, f: Frame, row: seq<Cell>, record: Record, lengthOf: Lengths, i: nat)
    requires |row| == |cols| && Framed(cols, f) && RecordOf(cols, f, row, record, lengthOf)
    requires i < |cols| && Single(cols, i)
    ensures |record.names| == |record.values|
    ensures exists p :: 0 <= p < |record.names| && record.names[p] == cols[i].name && record.values[p] == Scalar(row[i])
  {
    hide Framed, RecordOf, Single, Leads;
    SingleLeads(cols, i);
    var m := FieldOf(cols, f, i);
    UsedOnce(cols, f, m);
    FieldAt(cols, f, row, record, lengthOf, m);
    var p := f.extra + m;
    assert record.names[p] == cols[i].name && record.values[p] == Scalar(row[i]);
  }

  /** And every cell in the record is that of the one column whose name is at its position. */
  lemma ScalarsAreSingleColumns(cols: seq<Column>, f: Frame, row: seq<Cell>, record: Record, lengthOf: Lengths, p: nat)
    requires |row| == |cols| && Framed(cols, f) && RecordOf(cols, f, row, record, lengthOf)
    requires p < |record.values| && record.values[p].Scalar?
    ensures p < |record.names|
    ensures exists i :: 0 <= i < |cols| && Single(cols, i) && record.names[p] == cols[i].name
                        && record.values[p] == Scalar(row[i])
  {
    hide Framed, RecordOf, Single, Leads;
    SlotAt(cols, f, row, record, lengthOf, p);
    var m := p - f.extra;
    UsedOnce(cols, f, m);
    FieldAt(cols, f, row, record, lengthOf, m);
  }

  // ---- duplicated names --------------------------------------------------------------------------------------

  /** A duplicated name has an array, filled with the cells of its columns in order. */
  lemma DuplicatesAreArrays(cols: seq<Column>, f: Frame, row: seq<Cell>, record: Record, lengthOf: Lengths, i: nat)
    requires |row| == |cols| && Framed(cols, f) && RecordOf(cols, f, row, record, lengthOf)
    requires i < |cols| && Leads(cols, i) && !Single(cols, i)
    ensures |record.names| == |record.values|
    ensures exists p, m: nat :: 0 <= p < |record.names| && record.names[p] == cols[i].name
                                && record.values[p] == FieldArray(m) && m < |record.arrays|
                                && record.arrays[m] == Fill(Group(cols, row, cols[i].name), lengthOf)
  {
    hide Framed, RecordOf, Single, Leads, Fill, Group;
    var m := FieldOf(cols, f, i);
    UsedOnce(cols, f, m);
    FieldAt(cols, f, row, record, lengthOf, m);
    var p := f.extra + m;
    assert record.names[p] == cols[i].name && record.values[p] == FieldArray(m);
  }

  /** And every array in the record is that of the duplicated name at its position. */
  lemma ArraysAreDuplicates(cols: seq<Column>, f: Frame, row: seq<Cell>, record: Record, lengthOf: Lengths, p: nat)
    requires |row| == |cols| && Framed(cols, f) && RecordOf(cols, f, row, record, lengthOf)
    requires p < |record.values| && record.values[p].FieldArray?
    ensures p < |record.names| && record.values[p].m < |record.arrays|
    ensures exists i :: 0 <= i < |cols| && Leads(cols, i) && !Single(cols, i) && record.names[p] == cols[i].name
                        && record.arrays[record.values[p].m] == Fill(Group(cols, row, cols[i].name), lengthOf)
  {
    hide Framed, RecordOf, Single, Leads, Fill, Group;
    SlotAt(cols, f, row, record, lengthOf, p);
    var m := p - f.extra;
    UsedOnce(cols, f, m);
    FieldAt(cols, f, row, record, lengthOf, m);
  }

  lemma FieldNamesDiffer(cols: seq<Column>, f: Frame, m: nat, k: nat)
    requires Framed(cols, f) && m < k < |f.wide|
    ensures !Same(f.wide[m].name, f.wide[k].name)
  {
    hide Same, Widen;
    assert f.wide[m] == Widen(f.fields[m], f.tables) && f.wide[k] == Widen(f.fields[k], f.tables);
    WidenKeeps(f.fields[m], f.tables);
    WidenKeeps(f.fields[k], f.tables);
  }

  /** Different positions of columns have different names. */
  lemma NamesDifferByPosition(cols: seq<Column>, f: Frame, row: seq<Cell>, record: Record, lengthOf: Lengths, p: nat,
                              q: nat)
    requires |row| == |cols| && Framed(cols, f) && RecordOf(cols, f, row, record, lengthOf)
    requires p < q < |record.values| && !record.values[p].TableObject? && !record.values[q].TableObject?
    ensures q < |record.names| && !Same(record.names[p], record.names[q])
  {
    hide Framed, RecordOf, Same, Single, Leads, Fill, Group;
    SlotAt(cols, f, row, record, lengthOf, p);
    SlotAt(cols, f, row, record, lengthOf, q);
    var m, k := p - f.extra, q - f.extra;
    UsedOnce(cols, f, m);
    UsedOnce(cols, f, k);
    FieldAt(cols, f, row, record, lengthOf, m);
    FieldAt(cols, f, row, record, lengthOf, k);
    FieldNamesDiffer(cols, f, m, k);
  }

  // ---- tables ------------------------------------------------------------------------------------------------

  predicate SomeNameTwice(cols: seq<Column>) {
    exists i :: 0 <= i < |cols| && !Leads(cols, i)
  }

  /** No later column of the same table has the same name. */
  predicate LastOfTable(cols: seq<Column>, i: nat)
    requires i < |cols|
  {
    forall k :: i < k < |cols| && cols[k].alias == cols[i].alias ==> !Same(cols[k].name, cols[i].name)
  }

  /** Column `i` goes by the spelling of the first column of its name. */
  predicate SpelledAs(cols: seq<Column>, i: nat, name: string)
    requires i < |cols|
  {
    exists l :: 0 <= l < |cols| && Leads(cols, l) && Same(cols[l].name, cols[i].name) && cols[l].name == name
  }

  /** The object of a table: its columns of duplicated names, the last of each name, and nothing else. */
  ghost predicate TableHas(cols: seq<Column>, row: seq<Cell>, alias: string, cells: map<string, Cell>)
    requires |row| == |cols|
  {
    && (forall i :: 0 <= i < |cols| && cols[i].alias == alias && !Single(cols, i) && LastOfTable(cols, i) ==>
          exists name :: SpelledAs(cols, i, name) && name in cells && cells[name] == row[i])
    && forall name :: name in cells ==>
        exists i :: 0 <= i < |cols| && cols[i].alias == alias && !Single(cols, i) && SpelledAs(cols, i, name)
  }

  /** How column `i` is seen through its field. */
  lemma ThroughField(cols: seq<Column>, f: Frame, i: nat)
    requires Framed(cols, f) && i < |cols|
    ensures |f.maps| == |cols| && f.maps[i].col < |f.wide|
    ensures f.maps[i].table < |f.tables| && f.tables[f.maps[i].table] == cols[i].alias
    ensures f.wide[f.maps[i].col].used == 1 <==> Single(cols, i)
    ensures SpelledAs(cols, i, f.wide[f.maps[i].col].name)
    ensures forall k :: 0 <= k < |cols| ==> (f.maps[k].col == f.maps[i].col <==> Same(cols[k].name, cols[i].name))
  {
    var m := f.maps[i].col;
    assert MappedWell(cols, f.fields, f.maps[i], i);
    UsedOnce(cols, f, m);
    var l := f.wide[m].first;
    assert f.wide[m] == Widen(f.fields[m], f.tables);
    WidenKeeps(f.fields[m], f.tables);
    assert Same(cols[l].name, cols[i].name);
    SingleByName(cols, l, i);
    forall k | 0 <= k < |cols| ensures f.maps[k].col == m <==> Same(cols[k].name, cols[i].name) {
      assert MappedWell(cols, f.fields, f.maps[k], k);
      if Same(cols[k].name, cols[i].name) { EarlierColumnOfField(cols, f.fields, f.maps, m, k); }
    }
  }

  lemma SingleByName(cols: seq<Column>, l: nat, i: nat)
    requires l < |cols| && i < |cols| && Same(cols[l].name, cols[i].name)
    ensures Single(cols, l) <==> Single(cols, i)
  {
    if OnlyOne(cols, l) || OnlyOne(cols, i) { assert l == i; }
  }

  lemma {:induction false} TableKeys(fields: seq<Field>, maps: seq<Mapped>, row: seq<Cell>, t: nat, n: nat,
                                       name: string)
    requires n <= |maps| == |row| && forall i :: 0 <= i < |maps| ==> maps[i].col < |fields|
    requires name in TableCells(fields, maps, row, t, n)
    ensures exists i :: 0 <= i < n && maps[i].table == t && fields[maps[i].col].used > 1
                        && fields[maps[i].col].name == name
  {
    var f := fields[maps[n - 1].col];
    if !(maps[n - 1].table == t && f.used > 1 && f.name == name) {
      TableKeys(fields, maps, row, t, n - 1, name);
    }
  }

  lemma TableIsRight(cols: seq<Column>, f: Frame, row: seq<Cell>, t: nat)
    requires |row| == |cols| && Framed(cols, f) && t < |f.tables|
    requires |f.maps| == |cols| && forall i :: 0 <= i < |f.maps| ==> f.maps[i].col < |f.wide|
    ensures TableHas(cols, row, f.tables[t], TableCells(f.wide, f.maps, row, t, |cols|))
  {
    hide Framed, Single, Same, SpelledAs, TableCells;
    var cells, n := TableCells(f.wide, f.maps, row, t, |cols|), |cols|;
    FrameIsShaped(cols, f);
    TablesDiffer(cols, f);
    forall i | 0 <= i < n && cols[i].alias == f.tables[t] && !Single(cols, i) && LastOfTable(cols, i)
      ensures exists name :: SpelledAs(cols, i, name) && name in cells && cells[name] == row[i]
    {
      var m := f.maps[i].col;
      ThroughField(cols, f, i);
      UsedOnce(cols, f, m);
      TableHoldsItsColumns(cols, f.wide, f.maps, row, t, n, m);
      forall k | i < k < n ensures f.maps[k].col != m || f.maps[k].table != t { ThroughField(cols, f, k); }
      assert IsLast(f.wide, f.maps, t, n, m, i);
      var name := f.wide[m].name;
      assert SpelledAs(cols, i, name) && name in cells && cells[name] == row[i];
    }
    forall name | name in cells
      ensures exists i :: 0 <= i < n && cols[i].alias == f.tables[t] && !Single(cols, i) && SpelledAs(cols, i, name)
    {
      TableKeys(f.wide, f.maps, row, t, n, name);
      var i :| 0 <= i < n && f.maps[i].table == t && f.wide[f.maps[i].col].used > 1
               && f.wide[f.maps[i].col].name == name;
      ThroughField(cols, f, i);
    }
  }

  lemma TablesDiffer(cols: seq<Column>, f: Frame)
    requires Framed(cols, f)
    ensures forall t, u :: 0 <= t < u < |f.tables| ==> f.tables[t] != f.tables[u]
    ensures f.tables == Aliases(cols) && |f.tables| >= 1 && f.tables[0] == ""
    ensures forall a :: a in f.tables <==> a == "" || exists i :: 0 <= i < |cols| && cols[i].alias == a
  {
    AliasesOnce(cols);
  }

  /** What a record has for table `t`. */
  lemma TableAt(cols: seq<Column>, f: Frame, row: seq<Cell>, record: Record, lengthOf: Lengths, t: nat)
    requires |row| == |cols| && RecordOf(cols, f, row, record, lengthOf) && 0 < t <= f.extra
    ensures |f.maps| == |cols| && forall i :: 0 <= i < |f.maps| ==> f.maps[i].col < |f.wide|
    ensures && t - 1 < |record.names| == |record.values| && t < |f.tables| && t < |record.tables|
            && record.names[t - 1] == f.tables[t] && record.values[t - 1] == TableObject(t)
            && record.tables[t] == TableCells(f.wide, f.maps, row, t, |cols|)
  {
    hide Filled, TableCells;
    assert Layout(f.extra, |f.wide|)[t - 1] == TableSlot(t);
  }

  /** With several aliases and some name twice, each alias has an object of its columns. */
  lemma TablesAreThere(cols: seq<Column>, f: Frame, row: seq<Cell>, record: Record, lengthOf: Lengths, i: nat)
    requires |row| == |cols| && Framed(cols, f) && RecordOf(cols, f, row, record, lengthOf)
    requires SeveralAliases(cols) && SomeNameTwice(cols) && i < |cols| && cols[i].alias != ""
    ensures |record.names| == |record.values|
    ensures exists p, t: nat :: 0 <= p < |record.names| && record.names[p] == cols[i].alias
                                && record.values[p] == TableObject(t) && t < |record.tables|
                                && TableHas(cols, row, cols[i].alias, record.tables[t])
  {
    hide Framed, TableHas, Single, Same, RecordOf, TableCells, SeveralAliases, SomeNameTwice;
    ExtraMeans(cols, f);
    TablesDiffer(cols, f);
    assert cols[i].alias in f.tables;
    var t: nat :| t < |f.tables| && f.tables[t] == cols[i].alias;
    TableAt(cols, f, row, record, lengthOf, t);
    TableIsRight(cols, f, row, t);
    assert record.names[t - 1] == cols[i].alias && record.values[t - 1] == TableObject(t);
  }

  /** And otherwise there is none. */
  lemma TablesAreAliases(cols: seq<Column>, f: Frame, row: seq<Cell>, record: Record, lengthOf: Lengths, p: nat)
    requires |row| == |cols| && Framed(cols, f) && RecordOf(cols, f, row, record, lengthOf)
    requires p < |record.values| && record.values[p].TableObject?
    ensures SeveralAliases(cols) && SomeNameTwice(cols)
    ensures p < |record.names| && record.values[p].t < |record.tables| && record.names[p] != ""
    ensures exists i :: 0 <= i < |cols| && cols[i].alias == record.names[p]
    ensures TableHas(cols, row, record.names[p], record.tables[record.values[p].t])
  {
    hide Framed, TableHas, Single, Same, RecordOf, TableCells, SeveralAliases, SomeNameTwice;
    ExtraMeans(cols, f);
    TablesDiffer(cols, f);
    SlotAt(cols, f, row, record, lengthOf, p);
    var t := p + 1;
    TableAt(cols, f, row, record, lengthOf, t);
    TableIsRight(cols, f, row, t);
    assert f.tables[t] in f.tables && f.tables[t] != f.tables[0];
  }

  lemma ExtraMeans(cols: seq<Column>, f: Frame)
    requires Framed(cols, f)
    ensures f.extra > 0 <==> SeveralAliases(cols) && SomeNameTwice(cols)
    ensures f.extra > 0 ==> f.extra == |f.tables| - 1
  {
    hide Same, Grouping, InTables, Widen, Leads;
    AliasesMean(cols, "");
    DepthsMean(cols, f);
  }

  lemma DepthsMean(cols: seq<Column>, f: Frame)
    requires Framed(cols, f)
    ensures SomeDuplicate(f.maps) <==> SomeNameTwice(cols)
  {
    hide Same, Leads;
    forall i | 0 <= i < |cols| ensures f.maps[i].depth == 0 <==> Leads(cols, i) {
      DepthMeans(cols, f, i);
    }
  }

  lemma DepthMeans(cols: seq<Column>, f: Frame, i: nat)
    requires Framed(cols, f) && i < |cols|
    ensures f.maps[i].depth == 0 <==> Leads(cols, i)
  {
    hide Same;
    assert MappedWell(cols, f.fields, f.maps[i], i);
    if f.maps[i].depth > 0 {
      var j := CountFinds(cols[..i], cols[i].name);
    } else {
      forall j | 0 <= j < i ensures !Same(cols[j].name, cols[i].name) {
        CountGrows(cols[..i], j, cols[i].name);
      }
    }
  }
}
