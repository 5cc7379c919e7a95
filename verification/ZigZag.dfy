/** The zigzag conversion: a text written down and up over some rows, and read row by row. */
module ZigZag {

  // ---------- rows ----------

  function Period(rows: nat): nat
    requires rows >= 2
  {
    2 * rows - 2
  }

  function Min(a: int, b: int): int {
    if a < b then a else b
  }

  /** The row an index is written in. */
  function RowOf(rows: nat, i: nat): (r: nat)
    requires rows >= 2
    ensures r < rows
  {
    var q := i % Period(rows);
    Min(q, Period(rows) - q)
  }

  /** The pen: its row, and whether it goes down next. */
  datatype Pen = Pen(row: nat, down: bool)

  /** Where the pen is after writing i characters: it turns at the first and the last row. */
  function PenAt(rows: nat, i: nat): (pen: Pen)
    requires rows >= 2
    ensures pen.row < rows && (pen.row == 0 ==> pen.down) && (pen.row == rows - 1 ==> !pen.down)
  {
    if i == 0 then Pen(0, true)
    else
      var before := PenAt(rows, i - 1);
      var row := if before.down then before.row + 1 else before.row - 1;
      Pen(row, if row == 0 then true else if row == rows - 1 then false else before.down)
  }

  lemma NextMod(i: nat, p: nat)
    requires p > 0
    ensures (i + 1) % p == if i % p + 1 == p then 0 else i % p + 1
  {
    var q, r := i / p, i % p;
    assert i == q * p + r;
    if r + 1 == p {
      ModIs(i + 1, p, q + 1, 0);
    } else {
      ModIs(i + 1, p, q, r + 1);
    }
  }

  lemma WholeMultiple(d: int, p: nat)
    ensures (d > 0 ==> d * p >= p) && (d < 0 ==> d * p + p <= 0)
  {
    if d > 0 {
      assert (d - 1) * p >= 0;
    } else if d < 0 {
      assert (-d - 1) * p >= 0;
    }
  }

  lemma ModIs(i: nat, p: nat, q: nat, r: nat)
    requires r < p && i == q * p + r
    ensures i % p == r && i / p == q
  {
    var d: int := i / p - q;
    assert i == (q + d) * p + i % p;
    assert (q + d) * p == q * p + d * p;
    WholeMultiple(d, p);
  }

  /** The closed form of the row is where the pen is. */
  lemma {:induction false} RowIsPenRow(rows: nat, i: nat)
    requires rows >= 2
    ensures PenAt(rows, i).row == RowOf(rows, i)
    ensures PenAt(rows, i).down <==> i % Period(rows) < rows - 1
  {
    hide PenAt;
    if i == 0 {
      PenStarts(rows);
    } else {
      RowIsPenRow(rows, i - 1);
      NextMod(i - 1, Period(rows));
      PenMoves(rows, i, (i - 1) % Period(rows));
    }
  }

  lemma PenStarts(rows: nat)
    requires rows >= 2
    ensures PenAt(rows, 0) == Pen(0, true) && 0 % Period(rows) == 0
  {
  }

  lemma PenMoves(rows: nat, i: nat, q: nat)
    requires rows >= 2 && i > 0 && q < Period(rows)
    requires PenAt(rows, i - 1) == Pen(Min(q, Period(rows) - q), q < rows - 1)
    ensures var next := if q + 1 == Period(rows) then 0 else q + 1;
            PenAt(rows, i) == Pen(Min(next, Period(rows) - next), next < rows - 1)
  {
  }

  // ---------- the order the characters are read in ----------

  function Once(k: nat, there: bool): seq<nat> {
    if there then [k] else []
  }

  /** The indices below n written in a row, in order. */
  function Pick(rows: nat, n: nat, r: nat): (ks: seq<nat>)
    requires rows >= 2
    ensures forall j :: 0 <= j < |ks| ==> ks[j] < n
  {
    if n == 0 then [] else Pick(rows, n - 1, r) + Once(n - 1, RowOf(rows, n - 1) == r)
  }

  /** The indices below n, the first rows first. */
  function Order(rows: nat, n: nat, upTo: nat): (ks: seq<nat>)
    requires rows >= 2
    ensures forall j :: 0 <= j < |ks| ==> ks[j] < n
  {
    if upTo == 0 then [] else Order(rows, n, upTo - 1) + Pick(rows, n, upTo - 1)
  }

  function Chars(s: string, ks: seq<nat>): (t: string)
    requires forall j :: 0 <= j < |ks| ==> ks[j] < |s|
    ensures |t| == |ks|
  {
    seq(|ks|, j requires 0 <= j < |ks| => s[ks[j]])
  }

  /** The text as read. */
  function Converted(s: string, rows: nat): (t: string)
    requires rows >= 2
  {
    Chars(s, Order(rows, |s|, rows))
  }

  lemma {:induction false} OrderGains(rows: nat, n: nat, upTo: nat)
    requires rows >= 2 && n > 0
    ensures |Order(rows, n, upTo)| == |Order(rows, n - 1, upTo)| + if RowOf(rows, n - 1) < upTo then 1 else 0
  {
    hide RowOf;
    if upTo > 0 {
      OrderGains(rows, n, upTo - 1);
    }
  }

  lemma {:induction false} OrderLength(rows: nat, n: nat)
    requires rows >= 2
    ensures |Order(rows, n, rows)| == n
  {
    hide Order, RowOf;
    if n == 0 {
      OrderOfNothing(rows, rows);
    } else {
      OrderLength(rows, n - 1);
      OrderGains(rows, n, rows);
    }
  }

  lemma {:induction false} PickAscends(rows: nat, n: nat, r: nat)
    requires rows >= 2
    ensures forall i, j :: 0 <= i < j < |Pick(rows, n, r)| ==> Pick(rows, n, r)[i] < Pick(rows, n, r)[j]
    ensures forall i :: 0 <= i < |Pick(rows, n, r)| ==> RowOf(rows, Pick(rows, n, r)[i]) == r
  {
    hide RowOf;
    if n > 0 {
      PickAscends(rows, n - 1, r);
    }
  }

  lemma {:induction false} OrderIsDistinct(rows: nat, n: nat, upTo: nat)
    requires rows >= 2
    ensures forall i :: 0 <= i < |Order(rows, n, upTo)| ==> RowOf(rows, Order(rows, n, upTo)[i]) < upTo
    ensures forall i, j :: 0 <= i < j < |Order(rows, n, upTo)| ==> Order(rows, n, upTo)[i] != Order(rows, n, upTo)[j]
  {
    hide RowOf, Pick;
    if upTo > 0 {
      OrderIsDistinct(rows, n, upTo - 1);
      PickAscends(rows, n, upTo - 1);
    }
  }

  lemma {:induction false} PickHolds(rows: nat, n: nat, k: nat)
    requires rows >= 2 && k < n
    ensures k in Pick(rows, n, RowOf(rows, k))
  {
    hide RowOf;
    if k < n - 1 {
      PickHolds(rows, n - 1, k);
    }
  }

  /** Reading row by row reads every index below n exactly once. */
  lemma OrderIsPermutation(rows: nat, n: nat)
    requires rows >= 2
    ensures |Order(rows, n, rows)| == n
    ensures forall i, j :: 0 <= i < j < n ==> Order(rows, n, rows)[i] != Order(rows, n, rows)[j]
    ensures forall k :: 0 <= k < n ==> k in Order(rows, n, rows)
  {
    OrderLength(rows, n);
    OrderIsDistinct(rows, n, rows);
    hide Order;
    forall k | 0 <= k < n ensures k in Order(rows, n, rows) {
      OrderHolds(rows, n, k);
    }
  }

  lemma OrderHolds(rows: nat, n: nat, k: nat)
    requires rows >= 2 && k < n
    ensures k in Order(rows, n, rows)
  {
    var r := RowOf(rows, k);
    hide RowOf, Pick;
    PickHolds(rows, n, k);
    assert Order(rows, n, r + 1) == Order(rows, n, r) + Pick(rows, n, r);
    OrderGrows(rows, n, r + 1, rows);
    hide Order;
    InPrefix(Order(rows, n, r + 1), Order(rows, n, rows), k);
  }

  lemma InPrefix(a: seq<nat>, b: seq<nat>, k: nat)
    requires a <= b && k in a
    ensures k in b
  {
  }

  lemma {:induction false} OrderOfNothing(rows: nat, upTo: nat)
    requires rows >= 2
    ensures Order(rows, 0, upTo) == []
  {
    if upTo > 0 {
      OrderOfNothing(rows, upTo - 1);
    }
  }

  lemma {:induction false} OrderGrows(rows: nat, n: nat, a: nat, b: nat)
    requires rows >= 2 && a <= b
    ensures Order(rows, n, a) <= Order(rows, n, b)
  {
    if a < b {
      OrderGrows(rows, n, a, b - 1);
    }
  }

  lemma {:induction false} PickGrows(rows: nat, a: nat, b: nat, r: nat)
    requires rows >= 2 && a <= b
    ensures Pick(rows, a, r) <= Pick(rows, b, r)
    ensures (forall i :: a <= i < b ==> RowOf(rows, i) != r) ==> Pick(rows, a, r) == Pick(rows, b, r)
  {
    if a < b {
      PickGrows(rows, a, b - 1, r);
    }
  }

  /** An index of the row, and none after it before the next one: reading on picks just that index. */
  lemma PickNext(rows: nat, n: nat, r: nat, k: nat, next: nat)
    requires rows >= 2 && k < n && k < next && RowOf(rows, k) == r
    requires forall i :: k < i < next ==> RowOf(rows, i) != r
    ensures Pick(rows, Min(next, n), r) == Pick(rows, k, r) + [k]
  {
    assert Pick(rows, k + 1, r) == Pick(rows, k, r) + [k];
    PickGrows(rows, k + 1, Min(next, n), r);
  }

  // ---------- where the characters of a row are ----------

  /** The n-th index of a row, rows between the first and the last having two to a period. */
  function Index(rows: nat, m: nat, n: nat): nat
    requires rows >= 2 && m < rows
  {
    var p := Period(rows);
    if m == 0 || m == rows - 1 then m + p * n
    else if n % 2 == 1 then m + p * (n - 1) / 2 + (rows - m - 1) * 2
    else m + p * (n / 2)
  }

  lemma RowAt(rows: nat, j: nat, q: nat)
    requires rows >= 2 && q < Period(rows)
    ensures RowOf(rows, Period(rows) * j + q) == Min(q, Period(rows) - q)
  {
    ModIs(Period(rows) * j + q, Period(rows), j, q);
  }

  /** An index as a period and a place in it: even ones going down, odd ones going up. */
  lemma IndexAt(rows: nat, m: nat, n: nat)
    requires rows >= 2 && m < rows
    ensures m == 0 || m == rows - 1 ==> Index(rows, m, n) == Period(rows) * n + m
    ensures 0 < m < rows - 1 && n % 2 == 0 ==> Index(rows, m, n) == Period(rows) * (n / 2) + m
    ensures 0 < m < rows - 1 && n % 2 == 1 ==> Index(rows, m, n) == Period(rows) * (n / 2) + (Period(rows) - m)
  {
    var p := Period(rows);
    if n % 2 == 1 {
      assert n - 1 == 2 * (n / 2);
      assert p * (n - 1) == 2 * (p * (n / 2));
    }
  }

  /** The n-th index of a row is in that row, and none before the next one is. */
  lemma IndexStep(rows: nat, m: nat, n: nat)
    requires rows >= 2 && m < rows
    ensures RowOf(rows, Index(rows, m, n)) == m && Index(rows, m, n) < Index(rows, m, n + 1)
    ensures forall i :: Index(rows, m, n) < i < Index(rows, m, n + 1) ==> RowOf(rows, i) != m
  {
    IndexAt(rows, m, n);
    IndexAt(rows, m, n + 1);
    var p := Period(rows);
    var j := if m == 0 || m == rows - 1 then n else n / 2;
    var q := Index(rows, m, n) - p * j;
    RowAt(rows, j, q);
    assert p * (j + 1) == p * j + p;
    hide Index, RowOf;
    forall i | Index(rows, m, n) < i < Index(rows, m, n + 1) ensures RowOf(rows, i) != m {
      if i < p * j + p {
        RowAt(rows, j, i - p * j);
      } else {
        RowAt(rows, j + 1, i - p * j - p);
      }
    }
  }

  /** No index before a row's first is in the row. */
  lemma FirstIndex(rows: nat, m: nat)
    requires rows >= 2 && m < rows
    ensures Index(rows, m, 0) == m && Pick(rows, m, m) == []
  {
    IndexAt(rows, m, 0);
    forall i | 0 <= i < m ensures RowOf(rows, i) != m {
      RowAt(rows, 0, i);
    }
    PickGrows(rows, 0, m, m);
  }

  /** How many columns the source counts for a text of n characters. */
  function Columns(rows: nat, n: nat): nat
    requires rows >= 2
  {
    var p := Period(rows);
    if rows >= 3 then
      2 * (n / p) + if n % p > rows then 2 else if n % p > 0 then 1 else 0
    else n / 2 + if n % 2 != 0 then 1 else 0
  }

  lemma ColumnsCoverOuter(rows: nat, n: nat)
    requires rows >= 2
    ensures Period(rows) * Columns(rows, n) >= n
  {
    var p, c := Period(rows), Columns(rows, n);
    var periods := n / p + if n % p > 0 then 1 else 0;
    assert n == p * (n / p) + n % p;
    assert p * (n / p + 1) == p * (n / p) + p;
    MulMono(p, periods, c);
  }

  lemma ColumnsCoverInner(rows: nat, n: nat, m: nat)
    requires 0 < m < rows - 1
    ensures var p, c := Period(rows), Columns(rows, n); p * (c / 2) + (if c % 2 == 1 then p - m else m) >= n
  {
    var p, c := Period(rows), Columns(rows, n);
    assert n == p * (n / p) + n % p;
    assert c / 2 == n / p + if n % p > rows then 1 else 0;
    assert p * (n / p + 1) == p * (n / p) + p;
  }

  /** They are enough: the next index of any row would be past the text. */
  lemma ColumnsCover(rows: nat, n: nat, m: nat)
    requires rows >= 2 && m < rows
    ensures Index(rows, m, Columns(rows, n)) >= n
  {
    hide Index, Columns, Period;
    IndexAt(rows, m, Columns(rows, n));
    if m == 0 || m == rows - 1 {
      ColumnsCoverOuter(rows, n);
    } else {
      ColumnsCoverInner(rows, n, m);
    }
  }

  lemma MulMono(p: nat, a: nat, b: nat)
    requires a <= b
    ensures p * a <= p * b
  {
    assert p * (b - a) >= 0;
  }

  lemma CharsGrow(s: string, ks: seq<nat>, k: nat)
    requires k < |s| && forall j :: 0 <= j < |ks| ==> ks[j] < |s|
    ensures Chars(s, ks + [k]) == Chars(s, ks) + [s[k]]
  {
  }

  // ---------- the conversion in place ----------

  /** The state between two writes: t characters written, those of the first rows and of the current one below a bound. */
  ghost predicate Written(s: string, rows: nat, out: seq<char>, m: nat, bound: nat)
    requires rows >= 2
  {
    bound <= |s| && out == Chars(s, Order(rows, |s|, m)) + Chars(s, Pick(rows, bound, m))
  }

  lemma WriteNext(s: string, rows: nat, out: seq<char>, m: nat, n: nat)
    requires rows >= 2 && m < rows && Index(rows, m, n) < |s| && Written(s, rows, out, m, Index(rows, m, n))
    ensures Written(s, rows, out + [s[Index(rows, m, n)]], m, Min(Index(rows, m, n + 1), |s|))
  {
    var k := Index(rows, m, n);
    IndexStep(rows, m, n);
    PickNext(rows, |s|, m, k, Index(rows, m, n + 1));
    CharsGrow(s, Pick(rows, k, m), k);
  }

  lemma RowDone(s: string, rows: nat, out: seq<char>, m: nat)
    requires rows >= 2 && m < rows && Written(s, rows, out, m, |s|)
    ensures out == Chars(s, Order(rows, |s|, m + 1))
  {
  }

  /** What is written is never more than the text, and a full text means the current row and all after it are done. */
  lemma NeverTooMuch(s: string, rows: nat, out: seq<char>, m: nat, bound: nat)
    requires rows >= 2 && m < rows && Written(s, rows, out, m, bound)
    ensures |out| <= |s|
    ensures |out| == |s| ==> Written(s, rows, out, m, |s|) && out == Converted(s, rows)
  {
    hide Pick, RowOf, Chars;
    OrderLength(rows, |s|);
    OrderGrows(rows, |s|, m + 1, rows);
    PickGrows(rows, bound, |s|, m);
    SameLengthPrefix(Order(rows, |s|, m), Pick(rows, bound, m), Pick(rows, |s|, m), Order(rows, |s|, rows));
    CharsOfConcat(s, Order(rows, |s|, m), Pick(rows, |s|, m));
  }

  lemma SameLengthPrefix(a: seq<nat>, b: seq<nat>, more: seq<nat>, whole: seq<nat>)
    requires b <= more && a + more <= whole
    ensures |a| + |b| <= |whole|
    ensures |a| + |b| == |whole| ==> b == more && a + b == whole
  {
  }

  lemma CharsOfConcat(s: string, a: seq<nat>, b: seq<nat>)
    requires forall j :: 0 <= j < |a| ==> a[j] < |s|
    requires forall j :: 0 <= j < |b| ==> b[j] < |s|
    ensures Chars(s, a + b) == Chars(s, a) + Chars(s, b)
  {
  }

  /** The first or the last row: one index to a period, until one is past the text. */
  method OuterRow(s: string, rows: nat, m: nat, numCols: nat, converted: array<char>, t: nat) returns (t': nat)
    requires rows >= 2 && (m == 0 || m == rows - 1) && numCols == Columns(rows, |s|) && converted.Length == |s| + 1
    requires t <= |s| && converted[..t] == Chars(s, Order(rows, |s|, m))
    modifies converted
    ensures t' <= |s| && converted[..t'] == Chars(s, Order(rows, |s|, m + 1))
    ensures converted[|s|] == old(converted[|s|])
  {
    hide Order, Pick, Columns, Index, Written, Chars;
    var p := rows * 2 - 2;
    t' := t;
    RowBegins(s, rows, converted[..t], m);
    var n := 0;
    while n < numCols
      invariant n <= numCols && t' <= |s|
      invariant Written(s, rows, converted[..t'], m, Min(Index(rows, m, n), |s|))
      invariant converted[|s|] == old(converted[|s|])
    {
      IndexAt(rows, m, n);
      var k := m + p * n;
      if k >= |s| {
        break;
      }
      WriteNext(s, rows, converted[..t'], m, n);
      NeverTooMuch(s, rows, converted[..t'] + [s[k]], m, Min(Index(rows, m, n + 1), |s|));
      converted[t'] := s[k];
      assert converted[..t' + 1] == converted[..t'] + [s[k]];
      t' := t' + 1;
      n := n + 1;
    }
    ColumnsCover(rows, |s|, m);
    RowDone(s, rows, converted[..t'], m);
  }

  /** A row in between: two indices to a period, skipping those past the text; nothing to do once the text is full. */
  method InnerRow(s: string, rows: nat, m: nat, numCols: nat, converted: array<char>, t: nat) returns (t': nat)
    requires 0 < m < rows - 1 && numCols == Columns(rows, |s|) && converted.Length == |s| + 1
    requires t <= |s| && converted[..t] == Chars(s, Order(rows, |s|, m))
    modifies converted
    ensures t' <= |s| && converted[..t'] == Chars(s, Order(rows, |s|, m + 1))
    ensures converted[|s|] == old(converted[|s|])
  {
    hide Order, Pick, Columns, Index, Written, Chars;
    var p := rows * 2 - 2;
    t' := t;
    RowBegins(s, rows, converted[..t], m);
    var n := 0;
    while n < numCols
      invariant n <= numCols && t' <= |s|
      invariant Written(s, rows, converted[..t'], m, Min(Index(rows, m, n), |s|))
      invariant converted[|s|] == old(converted[|s|])
    {
      if t' >= |s| {
        NeverTooMuch(s, rows, converted[..t'], m, Min(Index(rows, m, n), |s|));
        RowDone(s, rows, converted[..t'], m);
        return;
      }
      var k := if n % 2 != 0 then m + p * (n - 1) / 2 + (rows - m - 1) * 2 else m + p * (n / 2);
      InnerIndex(rows, m, n);
      IndexStep(rows, m, n);
      if k < |s| {
        WriteNext(s, rows, converted[..t'], m, n);
        converted[t'] := s[k];
        assert converted[..t' + 1] == converted[..t'] + [s[k]];
        t' := t' + 1;
      }
      n := n + 1;
    }
    ColumnsCover(rows, |s|, m);
    RowDone(s, rows, converted[..t'], m);
  }

  lemma InnerIndex(rows: nat, m: nat, n: nat)
    requires 0 < m < rows - 1
    ensures Index(rows, m, n)
         == if n % 2 != 0 then m + (rows * 2 - 2) * (n - 1) / 2 + (rows - m - 1) * 2 else m + (rows * 2 - 2) * (n / 2)
  {
  }

  lemma RowBegins(s: string, rows: nat, out: seq<char>, m: nat)
    requires rows >= 2 && m < rows && out == Chars(s, Order(rows, |s|, m))
    ensures Written(s, rows, out, m, Min(Index(rows, m, 0), |s|))
  {
    FirstIndex(rows, m);
    PickGrows(rows, Min(m, |s|), m, m);
  }

  /** The text with its terminator, converted into a fresh array. */
  method Fill(s: string, rows: nat) returns (converted: array<char>)
    requires rows >= 2
    ensures fresh(converted) && converted[..] == Converted(s, rows) + [0 as char]
  {
    hide Order, Chars, Columns, Index;
    var siz := |s|;
    converted := new char[siz + 1];
    converted[siz] := 0 as char;
    var p := rows * 2 - 2;
    var numCols := CountColumns(rows, siz, p);
    NothingYet(s, rows);
    var t: nat := 0;
    t := OuterRow(s, rows, 0, numCols, converted, t);
    var m := 1;
    while m < rows - 1
      invariant 1 <= m <= rows - 1 && t <= siz && converted[..t] == Chars(s, Order(rows, siz, m))
      invariant converted[siz] == 0 as char
    {
      t := InnerRow(s, rows, m, numCols, converted, t);
      m := m + 1;
    }
    t := OuterRow(s, rows, rows - 1, numCols, converted, t);
    OrderLength(rows, siz);
    assert converted[..] == converted[..t] + [converted[siz]];
  }

  lemma NothingYet(s: string, rows: nat)
    requires rows >= 2
    ensures Chars(s, Order(rows, |s|, 0)) == []
  {
  }

  method CountColumns(rows: nat, siz: nat, p: nat) returns (numCols: nat)
    requires rows >= 2 && p == Period(rows)
    ensures numCols == Columns(rows, siz)
  {
    if rows >= 3 {
      numCols := 2 * (siz / p);
      var tmp := siz % p;
      if tmp > rows {
        numCols := numCols + 2;
      } else if tmp > 0 {
        numCols := numCols + 1;
      }
    } else {
      numCols := siz / 2;
      if siz % 2 != 0 {
        numCols := numCols + 1;
      }
    }
  }

  /** The whole function: a text of at most one row is itself. */
  method Convert(s: string, numRows: int) returns (t: string)
    ensures numRows <= 1 ==> t == s
    ensures numRows >= 2 ==> t == Converted(s, numRows) && |t| == |s|
  {
    if numRows <= 1 {
      return s;
    }
    OrderLength(numRows, |s|);
    var converted := Fill(s, numRows);
    t := converted[..|s|];
  }
}
