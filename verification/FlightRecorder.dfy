/** The flight recorder: a ring of rows that keeps the newest ones and dumps them in order. */
module FlightRecorder {
  import opened Arith

  // One recorded row: a time stamp in nanoseconds and one value per column.
  datatype Row = Row(t: int, vals: seq<real>)

  // What a dump writes: the column names and one line per row, with the time since the origin.
  datatype Csv = Csv(header: seq<string>, lines: seq<Row>)

  function Min(a: nat, b: nat): nat {
    if a < b then a else b
  }

  // The newest rows that fit.
  function Newest(rows: seq<Row>, cap: nat): seq<Row> {
    rows[|rows| - Min(|rows|, cap)..]
  }

  function Since(origin: int, rows: seq<Row>): (r: seq<Row>)
    ensures |r| == |rows|
    ensures forall k :: 0 <= k < |rows| ==> r[k] == Row(rows[k].t - origin, rows[k].vals)
  {
    if rows == [] then [] else Since(origin, rows[..|rows| - 1]) + [Row(rows[|rows| - 1].t - origin, rows[|rows| - 1].vals)]
  }

  // Row i of the flat data buffer.
  function Slice(data: seq<real>, ncols: nat, i: nat): seq<real>
    requires i * ncols + ncols <= |data|
  {
    data[i * ncols..i * ncols + ncols]
  }

  // Slot i holds row r.
  predicate Holds(t: seq<int>, data: seq<real>, ncols: nat, i: nat, r: Row) {
    && i < |t| && i * ncols + ncols <= |data|
    && t[i] == r.t && Slice(data, ncols, i) == r.vals
  }

  /** Every one of the newest rows stands in the slot of its number modulo the capacity. */
  ghost predicate Ring(t: seq<int>, data: seq<real>, ncols: nat, cap: nat, rows: seq<Row>)
    requires cap > 0
  {
    forall j: nat :: |rows| - cap <= j < |rows| ==> Holds(t, data, ncols, j % cap, rows[j])
  }

  lemma RowFits(i: nat, ncols: nat, cap: nat)
    requires i < cap
    ensures i * ncols + ncols <= cap * ncols
  {
    MulAtLeast(cap - i, ncols);
    assert cap * ncols == i * ncols + (cap - i) * ncols;
  }

  // Two different rows do not overlap in the flat buffer.
  lemma RowsApart(i: nat, j: nat, ncols: nat)
    ensures i < j ==> i * ncols + ncols <= j * ncols
    ensures j < i ==> j * ncols + ncols <= i * ncols
  {
    if i < j {
      RowFits(i, ncols, j);
    } else if j < i {
      RowFits(j, ncols, i);
    }
  }

  // Two numbers less than cap apart fall in different slots.
  lemma SlotsApart(i: nat, j: nat, cap: nat)
    requires i < j < i + cap
    ensures i % cap != j % cap
  {
    if i % cap == j % cap {
      var a, b := i / cap, j / cap;
      assert j - i == (b - a) * cap by {
        assert i == a * cap + i % cap && j == b * cap + j % cap;
      }
      MultipleInside(b - a, cap);
    }
  }

  lemma MultipleInside(m: int, cap: nat)
    ensures m <= 0 ==> m * cap <= 0
    ensures m >= 1 ==> m * cap >= cap
  {
  }

  // Writing one row into its slot keeps the rows of the other slots.
  lemma OtherRowsStay(t: seq<int>, data: seq<real>, t': seq<int>, data': seq<real>, ncols: nat, i: nat, j: nat, r: Row)
    requires Holds(t, data, ncols, j, r) && i != j && |t'| == |t| && |data'| == |data|
    requires forall k :: 0 <= k < |t| && k != i ==> t'[k] == t[k]
    requires forall c :: 0 <= c < |data| && !(i * ncols <= c < i * ncols + ncols) ==> data'[c] == data[c]
    ensures Holds(t', data', ncols, j, r)
  {
    RowsApart(i, j, ncols);
    assert Slice(data', ncols, j) == Slice(data, ncols, j);
  }

  lemma PushKeepsRing(t: seq<int>, data: seq<real>, t': seq<int>, data': seq<real>, ncols: nat, cap: nat,
                      rows: seq<Row>, r: Row)
    requires cap > 0 && Ring(t, data, ncols, cap, rows) && |t'| == |t| && |data'| == |data|
    requires forall k :: 0 <= k < |t| && k != |rows| % cap ==> t'[k] == t[k]
    requires forall c :: 0 <= c < |data| && !((|rows| % cap) * ncols <= c < (|rows| % cap) * ncols + ncols) ==> data'[c] == data[c]
    requires Holds(t', data', ncols, |rows| % cap, r)
    ensures Ring(t', data', ncols, cap, rows + [r])
  {
    forall j: nat | |rows| + 1 - cap <= j < |rows| + 1 ensures Holds(t', data', ncols, j % cap, (rows + [r])[j]) {
      if j < |rows| {
        SlotsApart(j, |rows|, cap);
        OtherRowsStay(t, data, t', data', ncols, |rows| % cap, j % cap, rows[j]);
      }
    }
  }

  // Where a dump starts reading.
  function DumpStart(n: nat, cap: nat): nat
    requires cap > 0
  {
    if n > cap then n % cap else 0
  }

  /** The k-th line of a dump is read from the slot of the k-th newest row, whether or not the
      ring has come round. */
  lemma DumpSlot(n: nat, cap: nat, k: nat)
    requires cap > 0 && k < Min(n, cap)
    ensures (DumpStart(n, cap) + k) % cap == (n - Min(n, cap) + k) % cap
  {
    if n > cap {
      ModSum(n, k, cap);
    }
  }

  lemma ModSum(n: nat, k: nat, cap: nat)
    requires cap > 0 && n >= cap
    ensures (n % cap + k) % cap == (n - cap + k) % cap
  {
    var a, q := n / cap, (n % cap + k) / cap;
    var r := (n % cap + k) % cap;
    assert n - cap + k == (a - 1 + q) * cap + r by {
      assert n == a * cap + n % cap && n % cap + k == q * cap + r;
    }
    DivUnique(n - cap + k, cap, a - 1 + q, r);
  }

  // The line written for slot i.
  function LineOf(t: seq<int>, data: seq<real>, ncols: nat, i: nat, origin: int): Row
    requires i < |t| && i * ncols + ncols <= |data|
  {
    Row(t[i] - origin, Slice(data, ncols, i))
  }

  lemma DumpLine(t: seq<int>, data: seq<real>, ncols: nat, cap: nat, rows: seq<Row>, k: nat, i: nat, origin: int)
    requires cap > 0 && Ring(t, data, ncols, cap, rows) && k < Min(|rows|, cap)
    requires i == (DumpStart(|rows|, cap) + k) % cap
    ensures i < |t| && i * ncols + ncols <= |data|
    ensures LineOf(t, data, ncols, i, origin) == Row(Newest(rows, cap)[k].t - origin, Newest(rows, cap)[k].vals)
  {
    DumpSlot(|rows|, cap, k);
    assert Holds(t, data, ncols, i, rows[|rows| - Min(|rows|, cap) + k]);
  }

  lemma SinceNext(origin: int, rows: seq<Row>, k: nat)
    requires k < |rows|
    ensures Since(origin, rows[..k]) + [Row(rows[k].t - origin, rows[k].vals)] == Since(origin, rows[..k + 1])
  {
    assert rows[..k + 1][..k] == rows[..k];
  }

  class RingTrace {
    var enabled: bool
    var cols: seq<string>
    var ncols: nat
    var cap: nat
    var tNs: array<int>
    var data: array<real>
    var head: nat
    var frozen: bool
    ghost var rows: seq<Row>   // every row recorded since the ring was last cleared

    ghost predicate Valid()
      reads this, tNs, data
    {
      && head == |rows| && ncols == |cols|
      && (enabled ==> && cap > 0 && ncols > 0 && tNs.Length == cap && data.Length == cap * ncols
                      && Ring(tNs[..], data[..], ncols, cap, rows))
    }

    constructor ()
      ensures Valid() && !enabled && rows == []
      ensures fresh(tNs) && fresh(data)
    {
      enabled, cols, ncols, cap, head, frozen, rows := false, [], 0, 0, 0, false, [];
      tNs, data := new int[0], new real[0];
    }

    /** A recorder with no column or no capacity is switched off and keeps its old buffers. */
    method Init(colNames: seq<string>, capacityRows: nat)
      requires Valid()
      modifies this
      ensures Valid() && cols == colNames && cap == capacityRows
      ensures enabled <==> capacityRows > 0 && colNames != []
      ensures enabled ==> rows == [] && !frozen && fresh(tNs) && fresh(data)
      ensures !enabled ==> rows == old(rows) && frozen == old(frozen) && tNs == old(tNs) && data == old(data)
    {
      cols, ncols, cap := colNames, |colNames|, capacityRows;
      enabled := cap > 0 && ncols > 0;
      if !enabled {
        return;
      }
      tNs := new int[cap](_ => 0);
      data := new real[cap * ncols](_ => 0.0);
      head, frozen, rows := 0, false, [];
    }

    method Push(t: int, vals: seq<real>)
      requires Valid() && |vals| == ncols
      modifies this`head, this`rows, tNs, data
      ensures Valid()
      ensures rows == if enabled && !frozen then old(rows) + [Row(t, vals)] else old(rows)
      ensures !enabled || frozen ==> head == old(head) && tNs[..] == old(tNs[..]) && data[..] == old(data[..])
    {
      if !enabled || frozen {
        return;
      }
      ghost var t0, data0 := tNs[..], data[..];
      var i := head % cap;
      RowFits(i, ncols, cap);
      tNs[i] := t;
      forall c | 0 <= c < ncols {
        data[i * ncols + c] := vals[c];
      }
      assert Slice(data[..], ncols, i) == vals;
      PushKeepsRing(t0, data0, tNs[..], data[..], ncols, cap, rows, Row(t, vals));
      rows := rows + [Row(t, vals)];
      head := head + 1;
    }

    /** The dump writes the newest rows, oldest of them first, and freezes the recorder even when
        the file cannot be opened. */
    method Dump(canOpen: bool, origin: int) returns (count: nat, csv: Csv)
      requires Valid()
      modifies this`frozen
      ensures Valid()
      ensures frozen == (old(frozen) || enabled)
      ensures enabled && canOpen ==> csv == Csv(cols, Since(origin, Newest(rows, cap))) && count == Min(|rows|, cap)
      ensures !enabled || !canOpen ==> count == 0 && csv == Csv([], [])
    {
      csv := Csv([], []);
      if !enabled {
        return 0, csv;
      }
      frozen := true;
      var n := head;
      count := Min(n, cap);
      var start := DumpStart(n, cap);
      if !canOpen {
        return 0, csv;
      }
      var lines := [];
      for k := 0 to count
        invariant lines == Since(origin, Newest(rows, cap)[..k])
      {
        lines := lines + [Line(start, k, origin)];
      }
      assert Newest(rows, cap)[..count] == Newest(rows, cap);
      csv := Csv(cols, lines);
    }

    // The k-th line of a dump that starts at the given slot.
    function Line(start: nat, k: nat, origin: int): (r: Row)
      reads this, tNs, data
      requires Valid() && enabled && start == DumpStart(head, cap) && k < Min(head, cap)
      ensures Since(origin, Newest(rows, cap)[..k]) + [r] == Since(origin, Newest(rows, cap)[..k + 1])
    {
      SinceNext(origin, Newest(rows, cap), k);
      DumpLine(tNs[..], data[..], ncols, cap, rows, k, (start + k) % cap, origin);
      LineOf(tNs[..], data[..], ncols, (start + k) % cap, origin)
    }
  }
}
