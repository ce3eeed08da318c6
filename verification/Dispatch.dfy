/** A kernel's invocations dispatched as rows of workgroups, and the index each thread takes: when every index
    of the work is taken once. */
module Dispatch {
  const U32 := 0x1_0000_0000
  const WORKGROUP_SIZE := 256

  function DivCeil(n: nat, d: nat): nat
    requires d > 0
  {
    (n + d - 1) / d
  }

  function Groups(invocations: nat): (groups: nat)
    ensures groups >= 1 && invocations <= groups * WORKGROUP_SIZE
    ensures groups > 1 ==> (groups - 1) * WORKGROUP_SIZE < invocations
  {
    var groups := DivCeil(invocations, WORKGROUP_SIZE);
    if groups < 1 then 1 else groups
  }

  /** Workgroups in a row, and rows. */
  function Workgroups(invocations: nat, rowLength: nat): (nat, nat)
    requires rowLength >= 1
  {
    var groups := Groups(invocations);
    var x := if groups < rowLength then groups else rowLength;
    (x, DivCeil(groups, x))
  }

  lemma DivCeilBounds(n: nat, d: nat)
    requires d > 0
    ensures n <= d * DivCeil(n, d) < n + d
  {
    var q := DivCeil(n, d);
    assert n + d - 1 == d * q + (n + d - 1) % d;
  }

  /** Rows no longer than allowed cover the work, and one row less does not; with more than one, they are as long
      as allowed. */
  lemma RowsCover(invocations: nat, rowLength: nat)
    requires rowLength >= 1
    ensures var (x, y) := Workgroups(invocations, rowLength);
      && 1 <= x <= rowLength && y >= 1 && (y > 1 ==> x == rowLength)
      && Groups(invocations) <= x * y < Groups(invocations) + x
      && invocations <= x * y * WORKGROUP_SIZE && (y > 1 ==> x * (y - 1) * WORKGROUP_SIZE < invocations)
  {
    var groups := Groups(invocations);
    var (x, y) := Workgroups(invocations, rowLength);
    DivCeilBounds(groups, x);
    if x == groups {
      OneRow(groups);
    }
    assert x * (y - 1) == x * y - x <= groups - 1;
  }

  lemma OneRow(n: nat)
    requires n > 0
    ensures DivCeil(n, n) == 1
  {
  }

  // --- The index a thread takes

  /** A thread of rows of `width` threads, by its place in its row and its row. */
  datatype Thread = Thread(place: nat, row: nat)

  ghost predicate IsThread(t: Thread, width: nat, rows: nat) { t.place < width && t.row < rows }

  /** Its number, row after row. */
  function Number(t: Thread, width: nat): nat { t.row * width + t.place }

  /** Its index as the shader computes it, in 32-bit arithmetic. */
  function LinearIndex(t: Thread, width: nat): nat { Number(t, width) % U32 }

  /** Threads are numbered along a row, and on into the next. */
  lemma NumbersRunOn(place: nat, row: nat, width: nat)
    requires width > 0
    ensures Number(Thread(0, 0), width) == 0
    ensures Number(Thread(place + 1, row), width) == Number(Thread(place, row), width) + 1
    ensures Number(Thread(0, row + 1), width) == Number(Thread(width - 1, row), width) + 1
  {
  }

  lemma Multiples(a: nat, b: nat, width: nat)
    requires a < b
    ensures a * width + width <= b * width
  {
    assert (a + 1) * width <= b * width;
  }

  lemma NumbersDiffer(t: Thread, u: Thread, width: nat)
    requires t.place < width && u.place < width && Number(t, width) == Number(u, width)
    ensures t == u
  {
    if t.row < u.row {
      Multiples(t.row, u.row, width);
    } else if u.row < t.row {
      Multiples(u.row, t.row, width);
    }
  }

  lemma NumberIsBounded(t: Thread, width: nat, rows: nat)
    requires IsThread(t, width, rows)
    ensures Number(t, width) < width * rows
  {
    Multiples(t.row, rows, width);
  }

  function Numbered(i: nat, width: nat): Thread
    requires width > 0
  {
    Thread(i % width, i / width)
  }

  lemma NumberedHasNumber(i: nat, width: nat, rows: nat)
    requires width > 0 && i < width * rows
    ensures IsThread(Numbered(i, width), width, rows) && Number(Numbered(i, width), width) == i
  {
    var t := Numbered(i, width);
    assert i == width * t.row + t.place;
    if t.row >= rows {
      RowsPast(rows, t.row, width);
    }
  }

  lemma RowsPast(rows: nat, row: nat, width: nat)
    requires rows <= row
    ensures width * rows <= width * row
  {
  }

  /** One thread takes index `i`, and no other. */
  ghost predicate TakenOnce(i: nat, width: nat, rows: nat) {
    && (exists t :: IsThread(t, width, rows) && LinearIndex(t, width) == i)
    && (forall t, u ::
          (IsThread(t, width, rows) && IsThread(u, width, rows) && LinearIndex(t, width) == LinearIndex(u, width) == i)
          ==> t == u)
  }

  lemma FewAreTakenOnce(i: nat, width: nat, rows: nat)
    requires width > 0 && i < width * rows <= U32
    ensures TakenOnce(i, width, rows)
  {
    NumberedHasNumber(i, width, rows);
    assert LinearIndex(Numbered(i, width), width) == i;
    forall t, u |
      IsThread(t, width, rows) && IsThread(u, width, rows) && LinearIndex(t, width) == LinearIndex(u, width) == i
      ensures t == u
    {
      NumberIsBounded(t, width, rows);
      NumberIsBounded(u, width, rows);
      NumbersDiffer(t, u, width);
    }
  }

  lemma FirstIsTakenAgain(width: nat, rows: nat)
    requires width > 0 && width * rows > U32
    ensures !TakenOnce(0, width, rows)
  {
    NumberedHasNumber(0, width, rows);
    NumberedHasNumber(U32, width, rows);
    var t, u := Numbered(0, width), Numbered(U32, width);
    assert LinearIndex(t, width) == LinearIndex(u, width) == 0;
  }

  /** Each index of the work is taken by one thread alone, exactly if the threads dispatched are no more than
      32 bits number: past that, the spare threads of the last row take the first indices again. */
  lemma EachIndexTakenOnceExactlyWhenNumbered(invocations: nat, rowLength: nat)
    requires rowLength >= 1
    ensures var (x, y) := Workgroups(invocations, rowLength); var width := x * WORKGROUP_SIZE;
      (forall i: nat :: i < invocations ==> TakenOnce(i, width, y)) <==> invocations == 0 || width * y <= U32
  {
    var (x, y) := Workgroups(invocations, rowLength);
    var width := x * WORKGROUP_SIZE;
    RowsCover(invocations, rowLength);
    assert width * y == x * y * WORKGROUP_SIZE;
    if width * y <= U32 {
      forall i: nat | i < invocations ensures TakenOnce(i, width, y) {
        FewAreTakenOnce(i, width, y);
      }
    } else if invocations > 0 {
      FirstIsTakenAgain(width, y);
    }
  }

  /** The most work a count can ask for, in rows as long as devices allow, takes its first indices twice. */
  lemma LargestDispatchTakesTwice()
    ensures Workgroups(U32 - 1, 65535) == (65535, 257) && !TakenOnce(0, 65535 * WORKGROUP_SIZE, 257)
  {
    FirstIsTakenAgain(65535 * WORKGROUP_SIZE, 257);
  }
}
