/**
 How many pages are free along a run of operations: a function of the operations alone, so that a caller can tell
 beforehand where a run would stop for want of pages.
 */
module PageBudget {
  import opened CacheAgreement
  import opened PageContents
  import opened PageCounts
  import opened Pages

  /** The number of free pages, and of the pages of every row of every slot. */
  datatype Layout = Layout(free: nat, rows: map<int, seq<nat>>)

  function LayoutOf(free: nat, tables: Tables): Layout
  {
    Layout(free, map s | s in tables :: RowSizes(tables[s]))
  }

  /** Only registered slots are written or reordered, and only from rows that are there. */
  ghost predicate Named<T>(layout: Layout, op: Op<T>)
  {
    && (op.Write? || op.Reorder? ==> op.slot in layout.rows)
    && (op.Reorder? ==> Sources(layout.rows[op.slot], op.hypo))
  }

  /** There are as many free pages as the operation takes. */
  ghost predicate FindsPages<T>(layout: Layout, op: Op<T>, pageSize: nat)
    requires pageSize > 0 && Named(layout, op)
  {
    match op
    case Register(_, _) => true
    case Write(slot, _, length, prefix) =>
      length <= prefix || MissingFrom(layout.rows[slot], PagesFor(length, pageSize), 0) <= layout.free
    case Reorder(slot, hypo) => CopiesFrom(layout.rows[slot], hypo, 0) <= layout.free
    case Drop(_) => true
  }

  ghost function LayoutAfter<T>(layout: Layout, op: Op<T>, pageSize: nat): Layout
    requires pageSize > 0 && Named(layout, op) && FindsPages(layout, op, pageSize)
  {
    var rows := layout.rows;
    match op
    case Register(slot, blank) => if slot in rows then layout else layout.(rows := rows[slot := seq(|blank|, _ => 0)])
    case Write(slot, _, length, prefix) =>
      if length <= prefix then layout
      else
        var want := PagesFor(length, pageSize);
        Layout(layout.free - MissingFrom(rows[slot], want, 0), rows[slot := Filled(rows[slot], want)])
    case Reorder(slot, hypo) =>
      Layout(layout.free - CopiesFrom(rows[slot], hypo, 0) + Released(rows[slot], hypo),
             rows[slot := Picked(rows[slot], hypo)])
    case Drop(slot) =>
      if slot in rows then Layout(layout.free + SumOutside(rows[slot], {}, |rows[slot]|), rows - {slot}) else layout
  }

  /** The layout after a run that starts with `free` pages and no slots, or after as much of it as finds its pages. */
  ghost function LayoutRun<T>(ops: seq<Op<T>>, free: nat, pageSize: nat): Layout
    requires pageSize > 0
  {
    if |ops| == 0 then Layout(free, map[])
    else
      var before, op := LayoutRun(ops[..|ops| - 1], free, pageSize), ops[|ops| - 1];
      if Named(before, op) && FindsPages(before, op, pageSize) then LayoutAfter(before, op, pageSize) else before
  }

  ghost predicate StepFindsPages<T>(ops: seq<Op<T>>, free: nat, pageSize: nat, i: nat)
    requires pageSize > 0 && i < |ops|
  {
    var before := LayoutRun(ops[..i], free, pageSize);
    Named(before, ops[i]) && FindsPages(before, ops[i], pageSize)
  }

  /** Each of the first `n` operations of the run finds its pages. */
  ghost predicate FirstFindPages<T>(ops: seq<Op<T>>, free: nat, pageSize: nat, n: nat)
    requires pageSize > 0 && n <= |ops|
  {
    forall i | 0 <= i < n :: StepFindsPages(ops, free, pageSize, i)
  }

  ghost predicate RunFindsPages<T>(ops: seq<Op<T>>, free: nat, pageSize: nat)
    requires pageSize > 0
  {
    FirstFindPages(ops, free, pageSize, |ops|)
  }

  lemma FoundNext<T>(ops: seq<Op<T>>, free: nat, pageSize: nat, i: nat)
    requires pageSize > 0 && i < |ops| && FirstFindPages(ops, free, pageSize, i)
             && StepFindsPages(ops, free, pageSize, i)
    ensures FirstFindPages(ops, free, pageSize, i + 1)
    ensures LayoutRun(ops[..i + 1], free, pageSize) == LayoutAfter(LayoutRun(ops[..i], free, pageSize), ops[i],
                                                                   pageSize)
  {
    assert ops[..i + 1][..i] == ops[..i];
  }

  lemma NotFound<T>(ops: seq<Op<T>>, free: nat, pageSize: nat, i: nat)
    requires pageSize > 0 && i < |ops| && !StepFindsPages(ops, free, pageSize, i)
    ensures !RunFindsPages(ops, free, pageSize)
  {
  }

  // ----- what the steps of the pool do to the layout -----

  lemma AllowedIsNamed<T>(size: nat, free: nat, tables: Tables, stored: Stored<T>, op: Op<T>, maxLength: nat)
    requires Fits(size, tables, stored) && Allowed(stored, op, maxLength)
    ensures Named(LayoutOf(free, tables), op)
  {
  }

  lemma LayoutOfEmpty<T>(size: nat, free: nat, tables: Tables, stored: Stored<T>, ops: seq<Op<T>>)
    requires size > 0 && Fits(size, tables, stored) && stored == map[]
    ensures LayoutOf(free, tables) == LayoutRun(ops[..0], free, size)
    ensures FirstFindPages(ops, free, size, 0)
  {
    assert tables.Keys == {};
  }

  lemma LayoutOfRegistered(free: nat, tables: Tables, slot: int, batch: nat)
    ensures LayoutOf(free, tables[slot := EmptyRows(batch)])
         == Layout(free, LayoutOf(free, tables).rows[slot := seq(batch, _ => 0)])
  {
    assert RowSizes(EmptyRows(batch)) == seq(batch, _ => 0);
  }

  lemma LayoutOfFilled(free: nat, tables: Tables, tables': Tables, slot: int, want: nat)
    requires slot in tables && slot in tables' && tables' == tables[slot := tables'[slot]]
             && |tables'[slot]| == |tables[slot]|
    requires forall r | 0 <= r < |tables[slot]| :: |tables'[slot][r]| == Needed(|tables[slot][r]|, want)
    ensures LayoutOf(free, tables') == Layout(free, LayoutOf(free, tables).rows[slot :=
                                                                                Filled(RowSizes(tables[slot]), want)])
  {
    assert RowSizes(tables'[slot]) == Filled(RowSizes(tables[slot]), want);
  }

  lemma LayoutOfReordered(free: nat, tables: Tables, tables': Tables, slot: int, hypo: seq<nat>)
    requires slot in tables && slot in tables' && tables' == tables[slot := tables'[slot]] && |tables'[slot]| == |hypo|
    requires Sources(tables[slot], hypo) && forall j | 0 <= j < |hypo| :: |tables'[slot][j]| == |tables[slot][hypo[j]]|
    ensures LayoutOf(free, tables') == Layout(free, LayoutOf(free, tables).rows[slot :=
                                                                                Picked(RowSizes(tables[slot]), hypo)])
  {
    assert RowSizes(tables'[slot]) == Picked(RowSizes(tables[slot]), hypo);
  }

  lemma LayoutOfDropped(free: nat, tables: Tables, slot: int)
    ensures LayoutOf(free, tables - {slot}) == Layout(free, LayoutOf(free, tables).rows - {slot})
    ensures slot in tables ==>
              |JoinedUpTo(tables[slot], {}, |tables[slot]|)| == SumOutside(RowSizes(tables[slot]), {}, |tables[slot]|)
    ensures slot !in tables ==> tables - {slot} == tables
  {
    if slot in tables {
      JoinedSize(tables[slot], {}, |tables[slot]|);
    } else {
      assert tables - {slot} == tables;
      assert LayoutOf(free, tables).rows - {slot} == LayoutOf(free, tables).rows;
    }
  }
}
