/** SAFEARRAYs: the foreign object with its bounds and its cells, and the loops that fill one from a
    JSON array and read one back. */
module SafeArrays {
  import opened Options
  import M = Variants
  import opened Variants

  datatype Bound = Bound(lower: int, count: nat)

  class SafeArray {
    const vt: nat
    const bounds: seq<Bound>
    var cells: map<seq<int>, Variant>
    var alive: bool

    constructor (vt: nat, bounds: seq<Bound>)
      ensures this.vt == vt && this.bounds == bounds && cells == map[] && alive
    {
      this.vt, this.bounds, cells, alive := vt, bounds, map[], true;
    }

    predicate InBounds(at: seq<int>) {
      |at| == |bounds| && forall d | 0 <= d < |at| :: bounds[d].lower <= at[d] < bounds[d].lower + bounds[d].count
    }

    /** A cell that was never stored to is empty. */
    function Cell(at: seq<int>): Variant
      reads this
    {
      if at in cells then cells[at] else Empty
    }

    /** Refuses an index out of bounds. */
    method PutElement(at: seq<int>, v: Variant) returns (ok: bool)
      requires alive
      modifies this`cells
      ensures ok <==> InBounds(at)
      ensures cells == if ok then old(cells)[at := v] else old(cells)
    {
      ok := InBounds(at);
      if ok {
        cells := cells[at := v];
      }
    }

    method GetElement(at: seq<int>) returns (v: Option<Variant>)
      requires alive
      ensures v == if InBounds(at) then Some(Cell(at)) else None
    {
      return if InBounds(at) then Some(Cell(at)) else None;
    }

    method Destroy()
      requires alive
      modifies this`alive
      ensures !alive
    {
      alive := false;
    }

    ghost function Row(prefix: seq<int>, b: Bound): seq<Variant>
      reads this
    {
      seq(b.count, k requires 0 <= k < b.count reads this => Cell(prefix + [b.lower + k]))
    }

    ghost function Rows(r: Bound, c: Bound): seq<seq<Variant>>
      reads this
    {
      seq(r.count, k requires 0 <= k < r.count reads this => Row([r.lower + k], c))
    }

    /** What the array is made of, whatever its lower bounds. */
    ghost function Contents(): Cells
      requires 1 <= |bounds| <= 2
      reads this
    {
      if |bounds| == 1 then Line(Row([], bounds[0])) else Grid(bounds[1].count, Rows(bounds[0], bounds[1]))
    }
  }

  // --- reading --------------------------------------------------------------------------------

  method ElementToJson(psa: SafeArray, at: seq<int>, minted: seq<nat>) returns (w: Json, m: seq<nat>)
    requires psa.alive && psa.InBounds(at)
    ensures (w, m) == M.ElementJson(psa.vt, psa.Cell(at), minted)
  {
    if psa.vt != VT_VARIANT && psa.vt !in TYPED_ELEMENT_ALLOWLIST {
      return Unsupported(psa.vt), minted;
    }
    var elem := psa.GetElement(at);
    var r := M.ToJson(elem.value, minted);
    return r.0, r.1;
  }

  method ReadLine(psa: SafeArray, prefix: seq<int>, b: Bound, minted: seq<nat>) returns (ws: seq<Json>, m: seq<nat>)
    requires psa.alive && forall i | b.lower <= i < b.lower + b.count :: psa.InBounds(prefix + [i])
    ensures (ws, m) == M.ReadRow(psa.vt, psa.Row(prefix, b), minted)
  {
    ghost var cells := psa.Row(prefix, b);
    ws, m := [], minted;
    for i := b.lower to b.lower + b.count
      invariant (ws, m) == M.ReadRow(psa.vt, cells[..i - b.lower], minted)
    {
      var w, m' := ElementToJson(psa, prefix + [i], m);
      ws, m := ws + [w], m';
      ghost var k := i - b.lower;
      assert cells[..k + 1][..k] == cells[..k] && cells[..k + 1][k] == psa.Cell(prefix + [i]);
    }
    assert cells[..b.count] == cells;
  }

  /** No array is null, and three dimensions or more are reported, not flattened. Any bounds do. */
  method ToJson(psa: SafeArray?, vt: nat, minted: seq<nat>) returns (w: Json, m: seq<nat>)
    requires psa != null ==> psa.alive
    ensures psa == null ==> (w, m) == (Null, minted)
    ensures psa != null && 1 <= |psa.bounds| <= 2 ==> (w, m) == M.ReadCells(psa.vt, psa.Contents(), minted)
    ensures psa != null && !(1 <= |psa.bounds| <= 2) ==> (w, m) == (Unsupported(vt), minted)
  {
    if psa == null {
      return Null, minted;
    }
    if |psa.bounds| == 1 {
      var ws;
      ws, m := ReadLine(psa, [], psa.bounds[0], minted);
      return Arr(ws), m;
    }
    if |psa.bounds| != 2 {
      return Unsupported(vt), minted;
    }
    var r, c := psa.bounds[0], psa.bounds[1];
    ghost var cells := psa.Rows(r, c);
    var rows: seq<Json> := [];
    m := minted;
    for i := r.lower to r.lower + r.count
      invariant (rows, m) == M.ReadRows(psa.vt, cells[..i - r.lower], minted)
    {
      var row, m' := ReadLine(psa, [i], c, m);
      rows, m := rows + [Arr(row)], m';
      ghost var k := i - r.lower;
      assert cells[..k + 1][..k] == cells[..k] && cells[..k + 1][k] == psa.Row([i], c);
    }
    assert cells[..r.count] == cells;
    w := Arr(rows);
  }

  // --- filling --------------------------------------------------------------------------------

  /** The cells after storing a row, element by element. */
  ghost function Stored(cells: map<seq<int>, Variant>, prefix: seq<int>, xs: seq<Variant>): map<seq<int>, Variant> {
    if xs == [] then cells
    else Stored(cells, prefix, xs[..|xs| - 1])[prefix + [|xs| - 1] := xs[|xs| - 1]]
  }

  ghost function StoredRows(cells: map<seq<int>, Variant>, rows: seq<seq<Variant>>): map<seq<int>, Variant> {
    if rows == [] then cells
    else Stored(StoredRows(cells, rows[..|rows| - 1]), [|rows| - 1], rows[|rows| - 1])
  }

  lemma {:induction false} StoredAt(cells: map<seq<int>, Variant>, prefix: seq<int>, xs: seq<Variant>, at: seq<int>)
    ensures var s := Stored(cells, prefix, xs);
      if |at| == |prefix| + 1 && at[..|prefix|] == prefix && 0 <= at[|prefix|] < |xs| then
        at in s && s[at] == xs[at[|prefix|]]
      else (at in s <==> at in cells) && (at in s ==> s[at] == cells[at])
    decreases |xs|
  {
    if xs != [] {
      var n := |xs| - 1;
      StoredAt(cells, prefix, xs[..n], at);
      assert (prefix + [n])[..|prefix|] == prefix && (prefix + [n])[|prefix|] == n;
      assert |at| == |prefix| + 1 ==> at == at[..|prefix|] + [at[|prefix|]];
    }
  }

  lemma {:induction false} StoredRowsAt(cells: map<seq<int>, Variant>, rows: seq<seq<Variant>>, r: nat, c: nat)
    requires r < |rows| && c < |rows[r]|
    ensures [r, c] in StoredRows(cells, rows) && StoredRows(cells, rows)[[r, c]] == rows[r][c]
    decreases |rows|
  {
    var n := |rows| - 1;
    StoredAt(StoredRows(cells, rows[..n]), [n], rows[n], [r, c]);
    assert [r, c][..1] == [r];
    if r < n {
      StoredRowsAt(cells, rows[..n], r, c);
    }
  }

  lemma StoredMore(cells: map<seq<int>, Variant>, prefix: seq<int>, xs: seq<Variant>, x: Variant)
    ensures Stored(cells, prefix, xs + [x]) == Stored(cells, prefix, xs)[prefix + [|xs|] := x]
  {
    assert (xs + [x])[..|xs|] == xs;
  }

  lemma NothingStored(cells: map<seq<int>, Variant>, prefix: seq<int>)
    ensures Stored(cells, prefix, []) == cells
  {
  }

  lemma NothingConverts(refs: map<nat, nat>)
    ensures M.ConvertRow([], refs) == Ok([])
  {
  }

  function After<T>(done: seq<T>, rest: Outcome<seq<T>>): Outcome<seq<T>> {
    match rest
    case Err(e) => Err(e)
    case Ok(xs) => Ok(done + xs)
  }

  lemma AfterNone<T>(rest: Outcome<seq<T>>)
    ensures After([], rest) == rest
  {
    assert rest.Ok? ==> [] + rest.value == rest.value;
  }

  lemma AfterOne(done: seq<Variant>, items: seq<Json>, refs: map<nat, nat>, k: nat)
    requires Flat(items) && k < |items|
    ensures After(done, M.ConvertRow(items[k..], refs)) ==
      match M.ToVariant(items[k], refs)
      case Err(e) => Err(e)
      case Ok(x) => After(done + [x], M.ConvertRow(items[k + 1..], refs))
  {
    assert items[k..][1..] == items[k + 1..];
    if M.ConvertRow(items[k..], refs).Ok? {
      var x, xs := M.ToVariant(items[k], refs).value, M.ConvertRow(items[k + 1..], refs).value;
      assert done + ([x] + xs) == done + [x] + xs;
    }
  }

  /** One row of the fill, up to the first element that does not convert. */
  method FillLine(psa: SafeArray, prefix: seq<int>, items: seq<Json>, refs: map<nat, nat>) returns (e: Option<Error>)
    requires psa.alive && Flat(items) && forall k | 0 <= k < |items| :: psa.InBounds(prefix + [k])
    modifies psa`cells
    ensures match M.ConvertRow(items, refs)
      case Err(x) => e == Some(x)
      case Ok(xs) => e == None && psa.cells == Stored(old(psa.cells), prefix, xs)
  {
    hide Stored, M.ConvertRow, M.ToVariant;
    ghost var done: seq<Variant> := [];
    assert items[0..] == items && items[|items|..] == [];
    NothingStored(psa.cells, prefix);
    NothingConverts(refs);
    AfterNone(M.ConvertRow(items, refs));
    for k := 0 to |items|
      invariant |done| == k && psa.cells == Stored(old(psa.cells), prefix, done)
      invariant M.ConvertRow(items, refs) == After(done, M.ConvertRow(items[k..], refs))
    {
      AfterOne(done, items, refs, k);
      match M.ToVariant(items[k], refs)
      case Err(x) => return Some(x);
      case Ok(x) =>
        var ok := psa.PutElement(prefix + [k], x);
        StoredMore(old(psa.cells), prefix, done, x);
        done := done + [x];
    }
    assert done + [] == done;
    e := None;
  }

  lemma AfterOneRow(done: seq<seq<Variant>>, items: seq<Json>, refs: map<nat, nat>, k: nat)
    requires k < |items| && forall v <- items :: v.Arr? && Flat(v.items)
    ensures After(done, M.ConvertRows(items[k..], refs)) ==
      match M.ConvertRow(items[k].items, refs)
      case Err(e) => Err(e)
      case Ok(row) => After(done + [row], M.ConvertRows(items[k + 1..], refs))
  {
    assert items[k..][1..] == items[k + 1..];
    if M.ConvertRows(items[k..], refs).Ok? {
      var x, xs := M.ConvertRow(items[k].items, refs).value, M.ConvertRows(items[k + 1..], refs).value;
      assert done + ([x] + xs) == done + [x] + xs;
    }
  }

  method FillGrid(psa: SafeArray, items: seq<Json>, refs: map<nat, nat>) returns (e: Option<Error>)
    requires psa.alive && psa.cells == map[] && Rectangle(items)
    requires psa.bounds == [Bound(0, |items|), Bound(0, |items[0].items|)]
    modifies psa`cells
    ensures match M.ConvertRows(items, refs)
      case Err(x) => e == Some(x)
      case Ok(rows) => e == None && psa.cells == StoredRows(map[], rows)
  {
    ghost var done: seq<seq<Variant>> := [];
    assert items[0..] == items;
    AfterNone(M.ConvertRows(items, refs));
    for r := 0 to |items|
      invariant |done| == r && psa.cells == StoredRows(map[], done)
      invariant M.ConvertRows(items, refs) == After(done, M.ConvertRows(items[r..], refs))
    {
      AfterOneRow(done, items, refs, r);
      assert items[r] in items;
      assert forall k | 0 <= k < |items[r].items| :: psa.InBounds([r] + [k]);
      e := FillLine(psa, [r], items[r].items, refs);
      if e.Some? {
        return;
      }
      done := done + [M.ConvertRow(items[r].items, refs).value];
      assert done[..r] == done[..|done| - 1];
    }
    assert done + [] == done;
    e := None;
  }

  lemma LineFilled(psa: SafeArray, xs: seq<Variant>)
    requires psa.bounds == [Bound(0, |xs|)] && psa.cells == Stored(map[], [], xs)
    ensures psa.Contents() == Line(xs)
  {
    var got := psa.Row([], psa.bounds[0]);
    forall k | 0 <= k < |xs| ensures got[k] == xs[k] {
      StoredAt(map[], [], xs, [k]);
      assert [k][..0] == [];
      assert got[k] == psa.Cell([k]) by { assert [] + [psa.bounds[0].lower + k] == [k]; }
    }
    assert got == xs;
  }

  lemma RowFilled(psa: SafeArray, rows: seq<seq<Variant>>, cols: nat, r: nat)
    requires psa.cells == StoredRows(map[], rows)
    requires r < |rows| && |rows[r]| == cols
    ensures psa.Row([r], Bound(0, cols)) == rows[r]
  {
    var got := psa.Row([r], Bound(0, cols));
    forall c | 0 <= c < cols ensures got[c] == rows[r][c] {
      StoredRowsAt(map[], rows, r, c);
      assert got[c] == psa.Cell([r, c]) by { assert [r] + [Bound(0, cols).lower + c] == [r, c]; }
    }
  }

  lemma GridFilled(psa: SafeArray, rows: seq<seq<Variant>>, cols: nat)
    requires psa.bounds == [Bound(0, |rows|), Bound(0, cols)] && psa.cells == StoredRows(map[], rows)
    requires forall row <- rows :: |row| == cols
    ensures psa.Contents() == Grid(cols, rows)
  {
    var got := psa.Rows(psa.bounds[0], psa.bounds[1]);
    forall r | 0 <= r < |rows| ensures got[r] == rows[r] {
      assert rows[r] in rows;
      RowFilled(psa, rows, cols, r);
    }
    assert got == rows;
  }

  lemma RowsOfOneLength(items: seq<Json>, refs: map<nat, nat>)
    requires Rectangle(items) && M.ConvertRows(items, refs).Ok?
    ensures var rows := M.ConvertRows(items, refs).value;
      |rows| == |items| && forall row <- rows :: |row| == |items[0].items|
  {
    RowsConvert(items, refs);
    forall i | 0 <= i < |items| ensures |M.ConvertRows(items, refs).value[i]| == |items[0].items| {
      assert items[i] in items;
      RowConverts(items[i].items, refs);
    }
  }

  /** What is wrong with the shape, if anything: one pass over the rows. */
  method CheckShape(items: seq<Json>) returns (p: Option<Error>)
    ensures p == ShapeProblem(items)
  {
    if items == [] || !items[0].Arr? {
      return if exists v <- items :: v.Arr? then Some(Mixed) else None;
    }
    var cols := |items[0].items|;
    assert items[0..] == items;
    for i := 0 to |items|
      invariant RowsProblem(items, cols) == RowsProblem(items[i..], cols)
    {
      assert items[i..][1..] == items[i + 1..];
      match items[i]
      case Arr(row) =>
        if |row| != cols {
          return Some(Ragged);
        }
        if exists v <- row :: v.Arr? {
          return Some(TooDeep);
        }
      case _ => return Some(Mixed);
    }
    p := None;
  }

  /** Either an array that the caller owns, or an error, and then nothing that was made is alive. */
  method FromJson(items: seq<Json>, refs: map<nat, nat>, memory: bool) returns (r: Outcome<SafeArray>, made: SafeArray?)
    ensures match M.Marshal(items, refs, memory)
      case Err(x) => r == Err(x) && (made != null ==> fresh(made) && !made.alive)
      case Ok(cells) =>
        && made != null && r == Ok(made) && fresh(made) && made.alive && made.vt == VT_VARIANT
        && made.bounds == (
             if cells.Line? then [Bound(0, |cells.cells|)] else [Bound(0, |cells.rows|), Bound(0, cells.cols)])
        && made.Contents() == cells
  {
    var p := CheckShape(items);
    if p.Some? {
      return Err(p.value), null;
    }
    if !memory {
      return Err(OutOfMemory), null;
    }
    ShapesAccepted(items);
    var e: Option<Error>;
    if items != [] && items[0].Arr? {
      assert items[0] in items;
      var psa := new SafeArray(VT_VARIANT, [Bound(0, |items|), Bound(0, |items[0].items|)]);
      made := psa;
      e := FillGrid(psa, items, refs);
      if e.None? {
        RowsOfOneLength(items, refs);
        GridFilled(psa, M.ConvertRows(items, refs).value, |items[0].items|);
      }
    } else {
      var psa := new SafeArray(VT_VARIANT, [Bound(0, |items|)]);
      made := psa;
      e := FillLine(psa, [], items, refs);
      if e.None? {
        RowConverts(items, refs);
        LineFilled(psa, M.ConvertRow(items, refs).value);
      }
    }
    if e.Some? {
      made.Destroy();
      return Err(e.value), made;
    }
    r := Ok(made);
  }
}
