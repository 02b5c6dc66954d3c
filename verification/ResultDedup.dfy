/** Removing repeated sources from the rows of one search round (`_deduplicate_results_by_source`). */
module ResultDedup {
  datatype Result = Result(contents: string, score: real)

  type Row = seq<Result>

  /** `_result_fingerprint` is any function of a result. */
  type Print = Result -> string

  function Total(rows: seq<Row>): nat {
    if rows == [] then 0 else Total(rows[..|rows| - 1]) + |rows[|rows| - 1]|
  }

  /** The fingerprints of a row in order of first appearance. */
  function Keys(fp: Print, row: Row): seq<string> {
    if row == [] then []
    else
      var keys, k := Keys(fp, row[..|row| - 1]), fp(row[|row| - 1]);
      if k in keys then keys else keys + [k]
  }

  function Prints(fp: Print, rows: seq<Row>): set<string> {
    set row, x | row in rows && x in row :: fp(x)
  }

  function Fresh(keys: seq<string>, seen: set<string>): seq<string> {
    if keys == [] then []
    else
      var k := keys[|keys| - 1];
      Fresh(keys[..|keys| - 1], seen) + if k in seen then [] else [k]
  }

  /** The highest-scored copy in the row stands at `i`, the first of those with that score. */
  ghost predicate BestAt(fp: Print, row: Row, i: int) {
    && 0 <= i < |row|
    && (forall j | 0 <= j < |row| && fp(row[j]) == fp(row[i]) :: row[j].score <= row[i].score)
    && forall j | 0 <= j < i && fp(row[j]) == fp(row[i]) :: row[j].score < row[i].score
  }

  ghost predicate BestCopy(fp: Print, row: Row, b: Result) {
    exists i | 0 <= i < |row| :: BestAt(fp, row, i) && row[i] == b
  }

  /** One output row: the fingerprints that no earlier row had, each with its best copy from this row. */
  ghost predicate RowFrom(fp: Print, row: Row, seen: set<string>, out: Row) {
    && |out| == |Fresh(Keys(fp, row), seen)|
    && forall i | 0 <= i < |out| :: fp(out[i]) == Fresh(Keys(fp, row), seen)[i] && BestCopy(fp, row, out[i])
  }

  /** The best copies seen so far, under their fingerprints. */
  ghost predicate Collects(fp: Print, row: Row, best: map<string, Result>, order: seq<string>) {
    && order == Keys(fp, row)
    && (forall k :: k in best <==> k in order)
    && forall k | k in best :: fp(best[k]) == k && BestCopy(fp, row, best[k])
  }

  lemma CollectOne(fp: Print, row: Row, x: Result, best: map<string, Result>, order: seq<string>)
    requires Collects(fp, row, best, order)
    ensures var k := fp(x);
      && (k !in best ==> Collects(fp, row + [x], best[k := x], order + [k]))
      && (k in best && x.score > best[k].score ==> Collects(fp, row + [x], best[k := x], order))
      && (k in best && x.score <= best[k].score ==> Collects(fp, row + [x], best, order))
  {
    hide BestCopy, Keys, Collects;
    var k := fp(x);
    KeysGrow(fp, row, x);
    if k !in best {
      CollectNew(fp, row, x, best, order);
    } else if x.score > best[k].score {
      CollectBetter(fp, row, x, best, order);
    } else {
      CollectWorse(fp, row, x, best, order);
    }
  }

  lemma KeysGrow(fp: Print, row: Row, x: Result)
    ensures Keys(fp, row + [x]) == if fp(x) in Keys(fp, row) then Keys(fp, row) else Keys(fp, row) + [fp(x)]
  {
    assert (row + [x])[..|row|] == row;
  }

  lemma CollectNew(fp: Print, row: Row, x: Result, best: map<string, Result>, order: seq<string>)
    requires Collects(fp, row, best, order) && fp(x) !in best
    ensures Collects(fp, row + [x], best[fp(x) := x], order + [fp(x)])
  {
    hide BestCopy, Keys;
    KeysGrow(fp, row, x);
    KeysHold(fp, row);
    BestAfter(fp, row, x);
  }

  lemma CollectBetter(fp: Print, row: Row, x: Result, best: map<string, Result>, order: seq<string>)
    requires Collects(fp, row, best, order) && fp(x) in best && x.score > best[fp(x)].score
    ensures Collects(fp, row + [x], best[fp(x) := x], order)
  {
    hide BestCopy, Keys;
    KeysGrow(fp, row, x);
    BestAfter(fp, row, x);
  }

  lemma CollectWorse(fp: Print, row: Row, x: Result, best: map<string, Result>, order: seq<string>)
    requires Collects(fp, row, best, order) && fp(x) in best && x.score <= best[fp(x)].score
    ensures Collects(fp, row + [x], best, order)
  {
    hide BestCopy, Keys;
    KeysGrow(fp, row, x);
    BestAfter(fp, row, x);
  }

  lemma BestAfter(fp: Print, row: Row, x: Result)
    ensures forall b | BestCopy(fp, row, b) && (fp(b) != fp(x) || x.score <= b.score) :: BestCopy(fp, row + [x], b)
    ensures (forall y | y in row :: fp(y) != fp(x)) ==> BestCopy(fp, row + [x], x)
    ensures forall b | BestCopy(fp, row, b) && fp(b) == fp(x) && x.score > b.score :: BestCopy(fp, row + [x], x)
  {
    hide BestAt;
    var n := |row|;
    forall b | BestCopy(fp, row, b) && (fp(b) != fp(x) || x.score <= b.score) ensures BestCopy(fp, row + [x], b) {
      var i :| 0 <= i < |row| && BestAt(fp, row, i) && row[i] == b;
      BestStays(fp, row, x, i);
    }
    if forall y | y in row :: fp(y) != fp(x) {
      BestIsNew(fp, row, x);
      assert (row + [x])[n] == x;
    }
    forall b | BestCopy(fp, row, b) && fp(b) == fp(x) && x.score > b.score ensures BestCopy(fp, row + [x], x) {
      var i :| 0 <= i < |row| && BestAt(fp, row, i) && row[i] == b;
      BestMoves(fp, row, x, i);
      assert (row + [x])[n] == x;
    }
  }

  lemma BestStays(fp: Print, row: Row, x: Result, i: int)
    requires BestAt(fp, row, i) && (fp(row[i]) != fp(x) || x.score <= row[i].score)
    ensures BestAt(fp, row + [x], i)
    ensures 0 <= i < |row| && (row + [x])[i] == row[i]
  {
  }

  lemma BestIsNew(fp: Print, row: Row, x: Result)
    requires forall y | y in row :: fp(y) != fp(x)
    ensures BestAt(fp, row + [x], |row|)
  {
    assert forall j | 0 <= j < |row| :: row[j] in row;
  }

  lemma BestMoves(fp: Print, row: Row, x: Result, i: int)
    requires BestAt(fp, row, i) && fp(row[i]) == fp(x) && x.score > row[i].score
    ensures BestAt(fp, row + [x], |row|)
  {
  }

  lemma {:induction false} KeysHold(fp: Print, row: Row)
    ensures forall x | x in row :: fp(x) in Keys(fp, row)
    ensures forall k | k in Keys(fp, row) :: exists x | x in row :: fp(x) == k
    ensures forall i, j | 0 <= i < j < |Keys(fp, row)| :: Keys(fp, row)[i] != Keys(fp, row)[j]
    ensures |Keys(fp, row)| <= |row|
  {
    if row != [] {
      var init, x := row[..|row| - 1], row[|row| - 1];
      KeysHold(fp, init);
      assert row == init + [x];
      assert forall y | y in row :: y in init || y == x;
      assert x in row;
    }
  }

  /** The inner loop over one row. */
  method BestByKey(fp: Print, row: Row) returns (best: map<string, Result>, order: seq<string>, removed: nat)
    ensures Collects(fp, row, best, order)
    ensures |row| == |order| + removed
  {
    hide Collects;
    best, order, removed := map[], [], 0;
    CollectNone(fp);
    for i := 0 to |row|
      invariant Collects(fp, row[..i], best, order)
      invariant i == |order| + removed
    {
      var key := fp(row[i]);
      CollectOne(fp, row[..i], row[i], best, order);
      assert row[..i] + [row[i]] == row[..i + 1];
      if key !in best {
        best := best[key := row[i]];
        order := order + [key];
      } else if row[i].score > best[key].score {
        removed := removed + 1;
        best := best[key := row[i]];
      } else {
        removed := removed + 1;
      }
    }
    assert row[..|row|] == row;
  }

  lemma CollectNone(fp: Print)
    ensures Collects(fp, [], map[], [])
  {
  }

  /** The loop that leaves out what an earlier row had. */
  method KeepFresh(fp: Print, ghost row: Row, best: map<string, Result>, order: seq<string>, seen: set<string>)
    returns (out: Row, seen': set<string>, removed: nat)
    requires Collects(fp, row, best, order)
    ensures RowFrom(fp, row, seen, out)
    ensures seen' == seen + set k | k in order
    ensures |order| == |out| + removed
  {
    hide BestCopy, Fresh, Keys;
    out, seen', removed := [], seen, 0;
    KeysHold(fp, row);
    assert Fresh([], seen) == [] by { FreshNone(seen); }
    for i := 0 to |order|
      invariant seen' == seen + set k | k in order[..i]
      invariant i == |out| + removed && |out| == |Fresh(order[..i], seen)|
      invariant forall j | 0 <= j < |out| :: fp(out[j]) == Fresh(order[..i], seen)[j] && BestCopy(fp, row, out[j])
    {
      FreshStep(order, i, seen);
      assert order[..i + 1] == order[..i] + [order[i]];
      assert order[i] in seen' <==> order[i] in seen;
      if order[i] in seen' {
        removed := removed + 1;
      } else {
        seen' := seen' + {order[i]};
        out := out + [best[order[i]]];
      }
    }
    assert order[..|order|] == order;
  }

  lemma FreshNone(seen: set<string>)
    ensures Fresh([], seen) == []
  {
  }

  lemma FreshStep(keys: seq<string>, i: nat, seen: set<string>)
    requires i < |keys|
    ensures Fresh(keys[..i + 1], seen) == Fresh(keys[..i], seen) + if keys[i] in seen then [] else [keys[i]]
  {
    assert keys[..i + 1][..i] == keys[..i];
  }

  method Deduplicate(fp: Print, rows: seq<Row>) returns (out: seq<Row>, removed: nat)
    ensures |out| == |rows|
    ensures Total(rows) == Total(out) + removed
    ensures forall r | 0 <= r < |rows| :: RowFrom(fp, rows[r], Prints(fp, rows[..r]), out[r])
  {
    hide RowFrom, Collects;
    var seen := {};
    out, removed := [], 0;
    for r := 0 to |rows|
      invariant |out| == r && Total(rows[..r]) == Total(out) + removed
      invariant seen == Prints(fp, rows[..r])
      invariant forall q | 0 <= q < r :: RowFrom(fp, rows[q], Prints(fp, rows[..q]), out[q])
    {
      var best, order, within := BestByKey(fp, rows[r]);
      var rowOut, seen', across := KeepFresh(fp, rows[r], best, order, seen);
      SeenGrows(fp, rows, r, best, order);
      TotalGrows(rows[..r], rows[r]);
      TotalGrows(out, rowOut);
      assert rows[..r] + [rows[r]] == rows[..r + 1];
      seen := seen';
      removed := removed + within + across;
      out := out + [rowOut];
    }
    assert rows[..|rows|] == rows;
  }

  lemma TotalGrows(rows: seq<Row>, row: Row)
    ensures Total(rows + [row]) == Total(rows) + |row|
  {
    assert (rows + [row])[..|rows|] == rows;
  }

  lemma SeenGrows(fp: Print, rows: seq<Row>, r: nat, best: map<string, Result>, order: seq<string>)
    requires r < |rows| && Collects(fp, rows[r], best, order)
    ensures Prints(fp, rows[..r + 1]) == Prints(fp, rows[..r]) + set k | k in order
  {
    KeysHold(fp, rows[r]);
    assert rows[..r + 1] == rows[..r] + [rows[r]];
  }

  // ---------------------------------------------------------------- what the output means

  lemma {:induction false} FreshHolds(keys: seq<string>, seen: set<string>)
    requires forall i, j | 0 <= i < j < |keys| :: keys[i] != keys[j]
    ensures forall k :: k in Fresh(keys, seen) <==> k in keys && k !in seen
    ensures forall i, j | 0 <= i < j < |Fresh(keys, seen)| :: Fresh(keys, seen)[i] != Fresh(keys, seen)[j]
  {
    if keys != [] {
      FreshHolds(keys[..|keys| - 1], seen);
      assert keys == keys[..|keys| - 1] + [keys[|keys| - 1]];
    }
  }

  /** Every fingerprint of the input stands exactly once in the output, in the first row that had it. */
  lemma EachPrintOnce(fp: Print, rows: seq<Row>, out: seq<Row>, r: nat, x: Result)
    requires |out| == |rows| && forall q | 0 <= q < |rows| :: RowFrom(fp, rows[q], Prints(fp, rows[..q]), out[q])
    requires r < |rows| && x in rows[r] && fp(x) !in Prints(fp, rows[..r])
    ensures exists i | 0 <= i < |out[r]| :: fp(out[r][i]) == fp(x)
    ensures forall q, i, j | 0 <= q < |out| && 0 <= i < |out[q]| && 0 <= j < |out[r]|
                             && fp(out[q][i]) == fp(x) && fp(out[r][j]) == fp(x) :: q == r && i == j
  {
    hide Keys, Fresh, BestCopy;
    RowHolds(fp, rows[r], Prints(fp, rows[..r]), out[r]);
    assert exists k | 0 <= k < |Fresh(Keys(fp, rows[r]), Prints(fp, rows[..r]))| ::
        Fresh(Keys(fp, rows[r]), Prints(fp, rows[..r]))[k] == fp(x);
    forall q, i | 0 <= q < |out| && 0 <= i < |out[q]| && fp(out[q][i]) == fp(x) ensures q == r {
      RowHolds(fp, rows[q], Prints(fp, rows[..q]), out[q]);
      if q > r { PrintSeen(fp, rows, r, q, x); }
    }
  }

  lemma RowHolds(fp: Print, row: Row, seen: set<string>, out: Row)
    requires RowFrom(fp, row, seen, out)
    ensures forall k :: k in Fresh(Keys(fp, row), seen) <==> (exists x | x in row :: fp(x) == k) && k !in seen
    ensures forall i, j | 0 <= i < j < |out| :: fp(out[i]) != fp(out[j])
    ensures forall i | 0 <= i < |out| :: out[i] in row && fp(out[i]) !in seen
  {
    hide Keys, Fresh;
    KeysHold(fp, row);
    FreshHolds(Keys(fp, row), seen);
  }

  lemma PrintSeen(fp: Print, rows: seq<Row>, r: nat, q: nat, x: Result)
    requires r < q <= |rows| && x in rows[r]
    ensures fp(x) in Prints(fp, rows[..q])
  {
    assert rows[..q][r] == rows[r];
  }

  /** The fingerprint is met first at `p`. */
  predicate MetAt(fp: Print, row: Row, k: string, p: nat) {
    p < |row| && fp(row[p]) == k && forall q | 0 <= q < p :: fp(row[q]) != k
  }

  /** Fingerprints come in the order in which they are first met. */
  lemma {:induction false} KeysInOrder(fp: Print, row: Row, i: nat, j: nat, p: nat, q: nat)
    requires i < j < |Keys(fp, row)| && MetAt(fp, row, Keys(fp, row)[i], p) && MetAt(fp, row, Keys(fp, row)[j], q)
    ensures p < q
  {
    hide Keys, MetAt;
    RowNotEmpty(fp, row);
    var n := |row| - 1;
    var init := row[..n];
    assert row == init + [row[n]];
    KeysGrow(fp, init, row[n]);
    InInit(fp, row, Keys(fp, row)[i], p);
    if j < |Keys(fp, init)| {
      InInit(fp, row, Keys(fp, row)[j], q);
      KeysInOrder(fp, init, i, j, p, q);
    } else {
      MetLast(fp, row, q);
    }
  }

  lemma RowNotEmpty(fp: Print, row: Row)
    ensures Keys(fp, row) != [] ==> row != []
  {
  }

  lemma MetLast(fp: Print, row: Row, q: nat)
    requires row != [] && fp(row[|row| - 1]) !in Keys(fp, row[..|row| - 1])
    requires MetAt(fp, row, fp(row[|row| - 1]), q)
    ensures q == |row| - 1
  {
    hide Keys;
    var init := row[..|row| - 1];
    KeysHold(fp, init);
    assert forall x | 0 <= x < |init| :: init[x] in init && init[x] == row[x];
  }

  lemma InInit(fp: Print, row: Row, k: string, p: nat)
    requires row != [] && k in Keys(fp, row[..|row| - 1]) && MetAt(fp, row, k, p)
    ensures p < |row| - 1 && MetAt(fp, row[..|row| - 1], k, p)
  {
    var init := row[..|row| - 1];
    KeysHold(fp, init);
    var x :| x in init && fp(x) == k;
    var y :| 0 <= y < |init| && init[y] == x;
    assert row[y] == x && p <= y;
    assert forall z | 0 <= z < |init| :: init[z] == row[z];
  }

  lemma {:induction false} FreshInOrder(keys: seq<string>, seen: set<string>, i: nat, j: nat) returns (x: nat, y: nat)
    requires i < j < |Fresh(keys, seen)|
    ensures x < y < |keys| && keys[x] == Fresh(keys, seen)[i] && keys[y] == Fresh(keys, seen)[j]
  {
    var n := |keys| - 1;
    var init := Fresh(keys[..n], seen);
    if j < |init| {
      x, y := FreshInOrder(keys[..n], seen, i, j);
    } else {
      x := FreshFrom(keys[..n], seen, i);
      y := n;
    }
  }

  lemma {:induction false} FreshFrom(keys: seq<string>, seen: set<string>, i: nat) returns (x: nat)
    requires i < |Fresh(keys, seen)|
    ensures x < |keys| && keys[x] == Fresh(keys, seen)[i]
  {
    var n := |keys| - 1;
    if i < |Fresh(keys[..n], seen)| { x := FreshFrom(keys[..n], seen, i); } else { x := n; }
  }

  /** So an output row stands in the order in which its row first has the fingerprints. */
  lemma RowInOrder(fp: Print, row: Row, seen: set<string>, out: Row, i: nat, j: nat, p: nat, q: nat)
    requires RowFrom(fp, row, seen, out) && i < j < |out|
    requires MetAt(fp, row, fp(out[i]), p) && MetAt(fp, row, fp(out[j]), q)
    ensures p < q
  {
    hide Keys, Fresh, BestCopy, MetAt;
    var x, y := FreshInOrder(Keys(fp, row), seen, i, j);
    KeysInOrder(fp, row, x, y, p, q);
  }
}
