/** JSON values and VARIANTs: the conversion of single values both ways, and what the conversion of
    an array comes to. A `real` is a value that some double has; only the cast of an integer rounds. */
module Variants {
  import opened Options
  import Doubles
  import OleDate

  /** Only the four keys that the conversions look at, or make, are kept of an object. */
  datatype Json =
    | Null
    | Bool(b: bool)
    | Int(i: int)
    | Num(x: real)
    | Str(s: string)
    | Object(kind: Option<string>, iso: Option<string>, ref: Option<nat>, vt: Option<nat>)
    | Arr(items: seq<Json>)

  /** `Dispatch(None)` is a null pointer, COM's Nothing. */
  datatype Variant =
    | Empty
    | VNull
    | I2(i: int)
    | I4(i: int)
    | R4(x: real)
    | R8(x: real)
    | Date(date: real)
    | Bstr(s: string)
    | Dispatch(target: Option<nat>)
    | VBool(b: bool)
    | Other(vt: nat)

  datatype Error =
    | NoIso
    | BadDate(problem: OleDate.Problem)
    | NoReference
    | Unresolved
    | Ragged
    | TooDeep
    | Mixed
    | OutOfMemory

  datatype Outcome<+T> = Ok(value: T) | Err(error: Error)

  function Time(iso: string): Json {
    Object(Some("time"), Some(iso), None, None)
  }

  function Ref(id: nat): Json {
    Object(None, None, Some(id), None)
  }

  function Unsupported(vt: nat): Json {
    Object(None, None, None, Some(vt))
  }

  // --- single values --------------------------------------------------------------------------

  predicate FitsI32(i: int) {
    -0x8000_0000 <= i < 0x8000_0000
  }

  /** `refs` is what the session's handles stand for. */
  function ToVariant(v: Json, refs: map<nat, nat>): Outcome<Variant>
    requires !v.Arr?
  {
    match v
    case Null => Ok(Empty)
    case Bool(b) => Ok(VBool(b))
    case Int(i) => if FitsI32(i) then Ok(I4(i)) else Ok(R8(Doubles.Double(i) as real))
    case Num(x) => Ok(R8(x))
    case Str(s) => Ok(Bstr(s))
    case Object(kind, iso, ref, _) =>
      if kind == Some("time") then
        if iso.None? then Err(NoIso)
        else match OleDate.Parse(iso.value) { case Ok(x) => Ok(Date(x)) case Err(p) => Err(BadDate(p)) }
      else if ref.None? then Err(NoReference)
      else if ref.value !in refs then Err(Unresolved)
      else Ok(Dispatch(Some(refs[ref.value])))
  }

  /** `minted` are the objects that have got a handle so far, in order; the handle of a new one is its
      place among them. */
  function ToJson(v: Variant, minted: seq<nat>): (Json, seq<nat>) {
    match v
    case Empty => (Null, minted)
    case VNull => (Null, minted)
    case I2(i) => (Int(i), minted)
    case I4(i) => (Int(i), minted)
    case R4(x) => (Num(x), minted)
    case R8(x) => (Num(x), minted)
    case Date(x) => (Time(OleDate.Format(x)), minted)
    case Bstr(s) => (Str(s), minted)
    case Dispatch(None) => (Null, minted)
    case Dispatch(Some(o)) => (Ref(|minted|), minted + [o])
    case VBool(b) => (Bool(b), minted)
    case Other(vt) => (Unsupported(vt), minted)
  }

  /** The number that a JSON number is. */
  function Number(w: Json): real
    requires w.Int? || w.Num?
  {
    if w.Int? then w.i as real else w.x
  }

  /** `w` says what `v` said: the same value; for an integer wider than 32 bits the nearest double, which
      is the same number exactly if 53 bits and a power of two make it up; the same instant, and in the
      same words unless the year is written -000; a handle of the same object. */
  ghost predicate Says(v: Json, refs: map<nat, nat>, w: Json, minted: seq<nat>) {
    match v
    case Int(i) =>
      && w == (if FitsI32(i) then v else Num(Doubles.Double(i) as real))
      && (Number(w) == i as real <==> Doubles.IsDouble(i))
    case Object(kind, iso, ref, _) =>
      if kind == Some("time") then
        && iso.Some? && w == Time(if w.Object? && w.iso.Some? then w.iso.value else "")
        && OleDate.Parse(w.iso.value) == OleDate.Parse(iso.value)
        && (w.iso == iso <==> iso.value[..if |iso.value| < 4 then |iso.value| else 4] != "-000")
      else
        && ref.Some? && ref.value in refs && w.Object? && w.ref.Some? && w == Ref(w.ref.value)
        && w.ref.value < |minted| && minted[w.ref.value] == refs[ref.value]
    case _ => w == v
  }

  lemma TimeComesBack(iso: string)
    ensures OleDate.Parse(iso).Ok? ==>
      var t := OleDate.Format(OleDate.Parse(iso).date);
      |iso| == 19 && OleDate.Parse(t) == OleDate.Parse(iso) && (t == iso <==> iso[..4] != "-000")
  {
    OleDate.TextRoundTrip(iso);
    OleDate.Reparses(iso);
  }

  lemma ValueComesBack(v: Json, refs: map<nat, nat>, minted: seq<nat>)
    requires !v.Arr? && ToVariant(v, refs).Ok?
    ensures var (w, m) := ToJson(ToVariant(v, refs).value, minted);
      Says(v, refs, w, m) && minted <= m
  {
    if v.Object? && v.kind == Some("time") {
      TimeComesBack(v.iso.value);
    }
    if v.Int? {
      Doubles.ExactIffDouble(v.i);
      if FitsI32(v.i) {
        Doubles.SmallIsDouble(v.i);
      }
    }
  }

  /** The first integer that does not come back: 2^53 + 1 comes back as 2^53. */
  lemma WideIntegerIsLost()
    ensures ToVariant(Int(9007199254740993), map[]) == Ok(R8(9007199254740992.0))
    ensures ToJson(R8(9007199254740992.0), []).0 == Num(9007199254740992.0)
  {
    Doubles.FirstLostInteger();
  }

  /** The type code a VARIANT carries. */
  function Tag(v: Variant): nat {
    match v
    case Empty => 0
    case VNull => 1
    case I2(_) => 2
    case I4(_) => 3
    case R4(_) => 4
    case R8(_) => 5
    case Date(_) => 7
    case Bstr(_) => 8
    case Dispatch(_) => 9
    case VBool(_) => 11
    case Other(vt) => vt
  }

  /** Which VARIANT each JSON value becomes: an integer is VT_I4 exactly within 32 bits, a tagged time is
      VT_DATE and never text; and what is refused, with which complaint. */
  lemma TypesStored(v: Json, refs: map<nat, nat>)
    requires !v.Arr?
    ensures match v
      case Null => Stored(v, refs, 0)
      case Bool(_) => Stored(v, refs, 11)
      case Str(_) => Stored(v, refs, 8)
      case Num(_) => Stored(v, refs, 5)
      case Int(i) => Stored(v, refs, if -2147483648 <= i <= 2147483647 then 3 else 5)
      case Object(Some("time"), None, _, _) => ToVariant(v, refs) == Err(NoIso)
      case Object(Some("time"), Some(iso), _, _) =>
        (match OleDate.Parse(iso)
         case Ok(_) => Stored(v, refs, 7)
         case Err(p) => ToVariant(v, refs) == Err(BadDate(p)))
      case Object(_, _, None, _) => ToVariant(v, refs) == Err(NoReference)
      case Object(_, _, Some(id), _) =>
        if id in refs then Stored(v, refs, 9) else ToVariant(v, refs) == Err(Unresolved)
  {
    hide OleDate.Parse, Doubles.Double;
  }

  predicate Stored(v: Json, refs: map<nat, nat>, tag: nat)
    requires !v.Arr?
  {
    ToVariant(v, refs).Ok? && Tag(ToVariant(v, refs).value) == tag
  }

  /** Every handle that was given out is one the session knows. */
  predicate Resolves(refs: map<nat, nat>, minted: seq<nat>) {
    forall k | 0 <= k < |minted| :: k in refs && refs[k] == minted[k]
  }

  /** The DATE of the rendered second: when its year has four characters, it is what is read back. */
  lemma DateWrittenBack(x: real)
    ensures var (days, secs) := OleDate.DayAndSecond(x);
      -999 <= OleDate.DayAt(days).y <= 9999 ==>
        OleDate.Parse(OleDate.Format(x)) == OleDate.Parsed.Ok(OleDate.DateOf(days, secs))
  {
    var (days, secs) := OleDate.DayAndSecond(x);
    OleDate.RendersNearestSecond(x);
    if -999 <= OleDate.DayAt(days).y <= 9999 {
      OleDate.DateRoundTrip(days, secs);
    }
  }

  /** Read, and written back: numbers, texts, truth values, objects and the empty value are the same VARIANT
      again; the short types come back wide; VT_NULL and Nothing come back empty; a DATE stays a DATE, of
      its nearest second; and a type that could not be read cannot be written. */
  lemma WrittenBack(v: Variant, minted: seq<nat>, refs: map<nat, nat>)
    requires (v.I2? ==> -32768 <= v.i <= 32767) && (v.I4? ==> -2147483648 <= v.i <= 2147483647)
    requires Resolves(refs, ToJson(v, minted).1)
    ensures var r := ToVariant(ToJson(v, minted).0, refs);
      && (v.Empty? || v.I4? || v.R8? || v.Bstr? || v.VBool? || (v.Dispatch? && v.target.Some?) ==> r == Ok(v))
      && (v.I2? ==> r == Ok(I4(v.i))) && (v.R4? ==> r == Ok(R8(v.x)))
      && (v.VNull? || v == Dispatch(None) ==> r == Ok(Empty))
      && (v.Other? ==> r == Err(NoReference))
      && (v.Date? ==> var (days, secs) := OleDate.DayAndSecond(v.date);
            -999 <= OleDate.DayAt(days).y <= 9999 ==> r == Ok(Date(OleDate.DateOf(days, secs))))
  {
    hide OleDate.DayAt, OleDate.DateOf, OleDate.DayAndSecond, OleDate.Parse, OleDate.Format, Doubles.Double;
    if v.Date? {
      DateWrittenBack(v.date);
    }
  }

  // --- arrays out -----------------------------------------------------------------------------

  predicate Flat(items: seq<Json>) {
    forall v <- items :: !v.Arr?
  }

  /** Rows of one length, without anything deeper. */
  predicate Rectangle(items: seq<Json>) {
    items != [] && items[0].Arr? && forall v <- items :: v.Arr? && |v.items| == |items[0].items| && Flat(v.items)
  }

  predicate AllConvert(items: seq<Json>, refs: map<nat, nat>) {
    forall v <- items :: !v.Arr? && ToVariant(v, refs).Ok?
  }

  /** The first row that does not fit decides the complaint, and its length comes first. */
  function RowsProblem(items: seq<Json>, cols: nat): Option<Error> {
    if items == [] then None
    else if !items[0].Arr? then Some(Mixed)
    else if |items[0].items| != cols then Some(Ragged)
    else if !Flat(items[0].items) then Some(TooDeep)
    else RowsProblem(items[1..], cols)
  }

  function ShapeProblem(items: seq<Json>): Option<Error> {
    if items != [] && items[0].Arr? then RowsProblem(items, |items[0].items|)
    else if Flat(items) then None
    else Some(Mixed)
  }

  /** The complaint about rows is about the first row that is wrong, and by the first thing wrong with it. */
  lemma {:induction false} FirstBadRow(items: seq<Json>, cols: nat) returns (k: nat)
    requires RowsProblem(items, cols).Some?
    ensures k < |items| && forall i | 0 <= i < k :: items[i].Arr? && |items[i].items| == cols && Flat(items[i].items)
    ensures RowsProblem(items, cols).value in {Mixed, Ragged, TooDeep}
    ensures RowsProblem(items, cols).value == Mixed <==> !items[k].Arr?
    ensures RowsProblem(items, cols).value == Ragged <==> items[k].Arr? && |items[k].items| != cols
    ensures RowsProblem(items, cols).value == TooDeep <==>
      items[k].Arr? && |items[k].items| == cols && !Flat(items[k].items)
  {
    k := 0;
    if items[0].Arr? && |items[0].items| == cols && Flat(items[0].items) {
      k := FirstBadRow(items[1..], cols);
      assert forall i | 0 < i <= k :: items[i] == items[1..][i - 1];
      k := k + 1;
    }
  }

  lemma {:induction false} RowsFit(items: seq<Json>, cols: nat)
    ensures RowsProblem(items, cols).None? <==> forall v <- items :: v.Arr? && |v.items| == cols && Flat(v.items)
  {
    if items != [] {
      RowsFit(items[1..], cols);
      assert forall v <- items :: v == items[0] || v in items[1..];
    }
  }

  lemma ShapesAccepted(items: seq<Json>)
    ensures ShapeProblem(items).None? <==> Flat(items) || Rectangle(items)
  {
    if items != [] && items[0].Arr? {
      RowsFit(items, |items[0].items|);
      assert items[0] in items;
    }
  }

  /** One row of elements, in order, up to the first that does not convert. */
  function ConvertRow(items: seq<Json>, refs: map<nat, nat>): Outcome<seq<Variant>>
    requires Flat(items)
  {
    if items == [] then Ok([])
    else
      match ToVariant(items[0], refs)
      case Err(e) => Err(e)
      case Ok(x) =>
        match ConvertRow(items[1..], refs)
        case Err(e) => Err(e)
        case Ok(xs) => Ok([x] + xs)
  }

  function ConvertRows(items: seq<Json>, refs: map<nat, nat>): Outcome<seq<seq<Variant>>>
    requires forall v <- items :: v.Arr? && Flat(v.items)
  {
    if items == [] then Ok([])
    else
      match ConvertRow(items[0].items, refs)
      case Err(e) => Err(e)
      case Ok(row) =>
        match ConvertRows(items[1..], refs)
        case Err(e) => Err(e)
        case Ok(rows) => Ok([row] + rows)
  }

  predicate ConvertsTo(vs: seq<Json>, refs: map<nat, nat>, xs: seq<Variant>) {
    |xs| == |vs| && forall i | 0 <= i < |vs| :: !vs[i].Arr? && ToVariant(vs[i], refs) == Ok(xs[i])
  }

  lemma {:induction false} RowConverts(items: seq<Json>, refs: map<nat, nat>)
    requires Flat(items)
    ensures var r := ConvertRow(items, refs);
      && (r.Ok? <==> AllConvert(items, refs))
      && (r.Ok? ==> ConvertsTo(items, refs, r.value))
  {
    if items != [] {
      RowConverts(items[1..], refs);
      assert forall v <- items :: v == items[0] || v in items[1..];
    }
  }

  lemma {:induction false} RowsConvert(items: seq<Json>, refs: map<nat, nat>)
    requires forall v <- items :: v.Arr? && Flat(v.items)
    ensures var r := ConvertRows(items, refs);
      && (r.Ok? <==> forall v <- items :: AllConvert(v.items, refs))
      && (r.Ok? ==> |r.value| == |items| && forall i | 0 <= i < |items| ::
            ConvertRow(items[i].items, refs) == Ok(r.value[i]))
  {
    if items != [] {
      RowConverts(items[0].items, refs);
      RowsConvert(items[1..], refs);
      assert forall v <- items :: v == items[0] || v in items[1..];
    }
  }

  /** What the array is made of: one dimension, or two with their number of columns, which an array
      without rows would not show. */
  datatype Cells = Line(cells: seq<Variant>) | Grid(cols: nat, rows: seq<seq<Variant>>)

  function Marshal(items: seq<Json>, refs: map<nat, nat>, memory: bool): Outcome<Cells> {
    if ShapeProblem(items).Some? then Err(ShapeProblem(items).value)
    else if !memory then Err(OutOfMemory)
    else if items != [] && items[0].Arr? then
      RowsFit(items, |items[0].items|);
      match ConvertRows(items, refs)
      case Err(e) => Err(e)
      case Ok(rows) => Ok(Grid(|items[0].items|, rows))
    else
      match ConvertRow(items, refs)
      case Err(e) => Err(e)
      case Ok(cells) => Ok(Line(cells))
  }

  /** Accepted are exactly the flat arrays and the rectangles of rows with nothing deeper, when every
      element converts. */
  lemma AcceptsExactly(items: seq<Json>, refs: map<nat, nat>)
    ensures Marshal(items, refs, true).Ok? <==>
      || (Flat(items) && AllConvert(items, refs))
      || (Rectangle(items) && forall v <- items :: AllConvert(v.items, refs))
    ensures Marshal(items, refs, false) == Err(OutOfMemory) <==> Flat(items) || Rectangle(items)
  {
    ShapesAccepted(items);
    if items != [] && items[0].Arr? && ShapeProblem(items).Some? {
      var _ := FirstBadRow(items, |items[0].items|);
    }
    if items != [] && items[0].Arr? {
      assert items[0] in items;
      RowsFit(items, |items[0].items|);
      if ShapeProblem(items).None? {
        RowsConvert(items, refs);
      }
    } else if Flat(items) {
      RowConverts(items, refs);
    }
  }

  // --- arrays in ------------------------------------------------------------------------------

  const VT_EMPTY := 0
  const VT_NULL := 1
  const VT_I2 := 2
  const VT_I4 := 3
  const VT_R4 := 4
  const VT_R8 := 5
  const VT_DATE := 7
  const VT_BSTR := 8
  const VT_DISPATCH := 9
  const VT_BOOL := 11
  const VT_VARIANT := 12

  const TYPED_ELEMENT_ALLOWLIST :=
    {VT_EMPTY, VT_NULL, VT_I2, VT_I4, VT_R4, VT_R8, VT_DATE, VT_BSTR, VT_DISPATCH, VT_BOOL}

  /** An element of a typed array is read only if its type is one of those that convert. */
  function ElementJson(vt: nat, cell: Variant, minted: seq<nat>): (Json, seq<nat>) {
    if vt != VT_VARIANT && vt !in TYPED_ELEMENT_ALLOWLIST then (Unsupported(vt), minted)
    else ToJson(cell, minted)
  }

  function ReadRow(vt: nat, cells: seq<Variant>, minted: seq<nat>): (seq<Json>, seq<nat>) {
    if cells == [] then ([], minted)
    else
      var (front, m) := ReadRow(vt, cells[..|cells| - 1], minted);
      var (w, m') := ElementJson(vt, cells[|cells| - 1], m);
      (front + [w], m')
  }

  function ReadRows(vt: nat, rows: seq<seq<Variant>>, minted: seq<nat>): (seq<Json>, seq<nat>) {
    if rows == [] then ([], minted)
    else
      var (front, m) := ReadRows(vt, rows[..|rows| - 1], minted);
      var (row, m') := ReadRow(vt, rows[|rows| - 1], m);
      (front + [Arr(row)], m')
  }

  function ReadCells(vt: nat, c: Cells, minted: seq<nat>): (Json, seq<nat>) {
    if c.Line? then var (ws, m) := ReadRow(vt, c.cells, minted); (Arr(ws), m)
    else var (ws, m) := ReadRows(vt, c.rows, minted); (Arr(ws), m)
  }

  /** The objects of a row, in order. */
  function ObjectsOf(cells: seq<Variant>): seq<nat> {
    if cells == [] then [] else ObjectsOf(cells[..|cells| - 1]) + ObjectOf(cells[|cells| - 1])
  }

  function ObjectOf(cell: Variant): seq<nat> {
    if cell.Dispatch? && cell.target.Some? then [cell.target.value] else []
  }

  lemma CellReads(vt: nat, cell: Variant, minted: seq<nat>)
    ensures ElementJson(vt, cell, minted) ==
      if Readable(vt) then (ToJson(cell, minted).0, minted + ObjectOf(cell))
      else (Unsupported(vt), minted)
  {
    hide OleDate.Format;
    assert minted + [] == minted;
  }

  /** VT_VARIANT, and the ten types that convert. */
  predicate Readable(vt: nat) {
    vt in {0, 1, 2, 3, 4, 5, 7, 8, 9, 11, 12}
  }

  predicate ReadsAt(vt: nat, cells: seq<Variant>, minted: seq<nat>, i: nat, w: Json)
    requires i < |cells|
  {
    w == if Readable(vt) then ToJson(cells[i], minted + ObjectsOf(cells[..i])).0 else Unsupported(vt)
  }

  lemma ReadsInFront(vt: nat, cells: seq<Variant>, minted: seq<nat>, i: nat, w: Json)
    requires i < |cells| - 1 && ReadsAt(vt, cells[..|cells| - 1], minted, i, w)
    ensures ReadsAt(vt, cells, minted, i, w)
  {
    assert cells[..|cells| - 1][..i] == cells[..i];
  }

  lemma ReadsLast(vt: nat, cells: seq<Variant>, minted: seq<nat>, m: seq<nat>)
    requires cells != []
    requires var front := cells[..|cells| - 1]; m == (if Readable(vt) then minted + ObjectsOf(front) else minted)
    ensures var (w, m') := ElementJson(vt, cells[|cells| - 1], m);
      && ReadsAt(vt, cells, minted, |cells| - 1, w)
      && m' == (if Readable(vt) then minted + ObjectsOf(cells) else minted)
  {
    hide ElementJson, ToJson, ObjectOf, Readable;
    CellReads(vt, cells[|cells| - 1], m);
  }

  /** A row of an array of any element type: read cell by cell, with a handle for every object in order,
      if the type is readable; reported cell by cell otherwise. */
  lemma {:induction false} RowReads(vt: nat, cells: seq<Variant>, minted: seq<nat>)
    ensures var (ws, m) := ReadRow(vt, cells, minted);
      && |ws| == |cells| && m == (if Readable(vt) then minted + ObjectsOf(cells) else minted)
      && forall i | 0 <= i < |cells| :: ReadsAt(vt, cells, minted, i, ws[i])
    decreases |cells|
  {
    hide ElementJson, ReadsAt, Readable;
    if cells == [] {
      assert minted + [] == minted;
    } else {
      hide ObjectsOf;
      var front := cells[..|cells| - 1];
      var (ws, m) := ReadRow(vt, front, minted);
      RowReads(vt, front, minted);
      ReadsLast(vt, cells, minted, m);
      forall i | 0 <= i < |front| ensures ReadsAt(vt, cells, minted, i, ws[i]) {
        ReadsInFront(vt, cells, minted, i, ws[i]);
      }
    }
  }

  ghost predicate SaysRow(vs: seq<Json>, refs: map<nat, nat>, ws: seq<Json>, minted: seq<nat>) {
    |ws| == |vs| && forall i | 0 <= i < |vs| :: Says(vs[i], refs, ws[i], minted)
  }

  lemma SaysOn(vs: seq<Json>, refs: map<nat, nat>, ws: seq<Json>, minted: seq<nat>, more: seq<nat>)
    requires SaysRow(vs, refs, ws, minted) && minted <= more
    ensures SaysRow(vs, refs, ws, more)
  {
  }

  lemma SaysOneMore(vs: seq<Json>, refs: map<nat, nat>, ws: seq<Json>, minted: seq<nat>, w: Json)
    requires vs != [] && SaysRow(vs[..|vs| - 1], refs, ws, minted) && Says(vs[|vs| - 1], refs, w, minted)
    ensures SaysRow(vs, refs, ws + [w], minted)
  {
    forall i | 0 <= i < |vs| - 1 ensures Says(vs[i], refs, ws[i], minted) {
      assert vs[..|vs| - 1][i] == vs[i];
    }
  }

  lemma ConvertsInFront(vs: seq<Json>, refs: map<nat, nat>, xs: seq<Variant>)
    requires vs != [] && ConvertsTo(vs, refs, xs)
    ensures var n := |vs| - 1; ConvertsTo(vs[..n], refs, xs[..n]) && !vs[n].Arr? && ToVariant(vs[n], refs) == Ok(xs[n])
  {
  }

  lemma {:induction false} RowComesBack(vs: seq<Json>, refs: map<nat, nat>, xs: seq<Variant>, minted: seq<nat>)
    requires ConvertsTo(vs, refs, xs)
    ensures var (ws, m) := ReadRow(VT_VARIANT, xs, minted); SaysRow(vs, refs, ws, m) && minted <= m
    decreases |vs|
  {
    if vs != [] {
      var n := |vs| - 1;
      ConvertsInFront(vs, refs, xs);
      RowComesBack(vs[..n], refs, xs[..n], minted);
      var (front, m) := ReadRow(VT_VARIANT, xs[..n], minted);
      ValueComesBack(vs[n], refs, m);
      var (w, m') := ElementJson(VT_VARIANT, xs[n], m);
      SaysOn(vs[..n], refs, front, m, m');
      SaysOneMore(vs, refs, front, m', w);
    }
  }

  ghost predicate SaysRows(vs: seq<Json>, refs: map<nat, nat>, ws: seq<Json>, minted: seq<nat>) {
    |ws| == |vs| && forall i | 0 <= i < |vs| ::
      vs[i].Arr? && ws[i].Arr? && SaysRow(vs[i].items, refs, ws[i].items, minted)
  }

  lemma SaysRowsOn(vs: seq<Json>, refs: map<nat, nat>, ws: seq<Json>, minted: seq<nat>, more: seq<nat>)
    requires SaysRows(vs, refs, ws, minted) && minted <= more
    ensures SaysRows(vs, refs, ws, more)
  {
    hide SaysRow;
    forall i | 0 <= i < |vs| ensures SaysRow(vs[i].items, refs, ws[i].items, more) {
      SaysOn(vs[i].items, refs, ws[i].items, minted, more);
    }
  }

  predicate RowsConvertTo(vs: seq<Json>, refs: map<nat, nat>, rows: seq<seq<Variant>>) {
    |rows| == |vs| && forall i | 0 <= i < |vs| :: vs[i].Arr? && ConvertsTo(vs[i].items, refs, rows[i])
  }

  lemma {:induction false} RowsComeBack(vs: seq<Json>, refs: map<nat, nat>, rows: seq<seq<Variant>>, minted: seq<nat>)
    requires RowsConvertTo(vs, refs, rows)
    ensures var (ws, m) := ReadRows(VT_VARIANT, rows, minted); SaysRows(vs, refs, ws, m) && minted <= m
    decreases |vs|
  {
    hide ConvertsTo, SaysRow, ReadRow;
    if vs != [] {
      var n := |vs| - 1;
      assert RowsConvertTo(vs[..n], refs, rows[..n]);
      RowsComeBack(vs[..n], refs, rows[..n], minted);
      var (front, m) := ReadRows(VT_VARIANT, rows[..n], minted);
      RowComesBack(vs[n].items, refs, rows[n], m);
      var (row, m') := ReadRow(VT_VARIANT, rows[n], m);
      SaysRowsOn(vs[..n], refs, front, m, m');
      assert forall i | 0 <= i < n :: vs[..n][i] == vs[i];
    }
  }

  /** An array that was accepted comes back with its shape, its rows and columns where they were, and
      every element saying what it said. */
  lemma ArrayComesBack(items: seq<Json>, refs: map<nat, nat>, minted: seq<nat>)
    requires Marshal(items, refs, true).Ok?
    ensures var (w, m) := ReadCells(VT_VARIANT, Marshal(items, refs, true).value, minted);
      w.Arr? && minted <= m &&
      if Flat(items) then SaysRow(items, refs, w.items, m) else SaysRows(items, refs, w.items, m)
  {
    if items != [] && items[0].Arr? {
      assert items[0] in items;
      RowsFit(items, |items[0].items|);
      RowsConvert(items, refs);
      forall i | 0 <= i < |items| ensures ConvertsTo(items[i].items, refs, ConvertRows(items, refs).value[i]) {
        RowConverts(items[i].items, refs);
      }
      RowsComeBack(items, refs, ConvertRows(items, refs).value, minted);
    } else {
      RowConverts(items, refs);
      RowComesBack(items, refs, ConvertRow(items, refs).value, minted);
    }
  }
}
