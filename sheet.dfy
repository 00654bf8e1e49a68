/** What the two Excel exports share: the values written to cells, rows
    written block after block, and the number of rows a report takes. */
module Sheet {
  import opened Wrappers
  import opened ReportModels

  /** A value written to a cell: text, an integer, a two-place decimal (in
      cents) or `None`, which leaves the cell empty. */
  datatype Cell = Text(text: string) | Int(n: int) | Money(cents: int) | Empty

  const Blank: Cell := Text("")

  function OptText(o: Option<string>): Cell {
    if o.Some? then Text(o.value) else Empty
  }

  function OptMoney(o: Option<int>): Cell {
    if o.Some? then Money(o.value) else Empty
  }

  /** The number of rows a report takes: one per stored good, or one. */
  function RowsOf(r: Report): nat {
    if r.goods == [] then 1 else |r.goods|
  }

  /** The number of rows some reports take. */
  function TotalRows(rs: seq<Report>): nat {
    if rs == [] then 0 else TotalRows(rs[..|rs| - 1]) + RowsOf(rs[|rs| - 1])
  }

  lemma TotalRowsStep(rs: seq<Report>, n: nat)
    requires 0 < n <= |rs|
    ensures TotalRows(rs[..n]) == TotalRows(rs[..n - 1]) + RowsOf(rs[n - 1])
  {
    assert rs[..n][..n - 1] == rs[..n - 1];
  }

  /** A row written as four consecutive groups of cells reads each group
      back at its place. */
  lemma FourParts<T>(a: seq<T>, b: seq<T>, c: seq<T>, d: seq<T>)
    ensures var s := a + b + c + d;
      s[..|a|] == a && s[|a|..|a| + |b|] == b
      && s[|a| + |b|..|a| + |b| + |c|] == c && s[|a| + |b| + |c|..] == d
  {
  }

  /** Blocks of rows written one after the other. */
  function Concat<T>(bs: seq<seq<T>>): seq<T> {
    if bs == [] then [] else Concat(bs[..|bs| - 1]) + bs[|bs| - 1]
  }

  lemma ConcatStep<T>(bs: seq<seq<T>>, i: nat)
    requires i < |bs|
    ensures Concat(bs[..i + 1]) == Concat(bs[..i]) + bs[i]
  {
    assert bs[..i + 1][..i] == bs[..i];
  }

  lemma AppendNext<T>(done: seq<T>, s: seq<T>, j: nat)
    requires j < |s|
    ensures done + s[..j] + [s[j]] == done + s[..j + 1]
  {
    assert s[..j + 1] == s[..j] + [s[j]];
  }

  /** One more block after some blocks already written. */
  lemma NextBlock<T>(done: seq<T>, bs: seq<seq<T>>, i: nat,
                  before: seq<T>, rows: seq<T>)
    requires i < |bs|
    requires before == done + Concat(bs[..i])
    requires rows == before + bs[i]
    ensures rows == done + Concat(bs[..i + 1])
  {
    ConcatStep(bs, i);
    assert done + Concat(bs[..i]) + bs[i] == done + (Concat(bs[..i]) + bs[i]);
  }

  lemma {:induction false} ConcatPrefix<T>(bs: seq<seq<T>>, i: nat, n: nat)
    requires i <= n <= |bs|
    ensures Concat(bs[..i]) <= Concat(bs[..n])
  {
    if i < n {
      ConcatPrefix(bs, i, n - 1);
      ConcatStep(bs, n - 1);
      assert forall j :: 0 <= j < |Concat(bs[..i])| ==>
        Concat(bs[..n])[j] == Concat(bs[..n - 1])[j];
    }
  }

  /** Cell `off` of block `i` lands after all the blocks before it. */
  lemma ConcatAt<T>(bs: seq<seq<T>>, i: nat, off: nat)
    requires i < |bs| && off < |bs[i]|
    ensures |Concat(bs[..i])| + off < |Concat(bs)|
    ensures Concat(bs)[|Concat(bs[..i])| + off] == bs[i][off]
  {
    ConcatStep(bs, i);
    ConcatPrefix(bs, i + 1, |bs|);
    assert bs[..|bs|] == bs;
  }

  /** The block and the offset a position of the concatenation falls in. */
  function Locate<T>(bs: seq<seq<T>>, k: nat): (p: (nat, nat))
    requires k < |Concat(bs)|
    ensures p.0 < |bs| && p.1 < |bs[p.0]| && k == |Concat(bs[..p.0])| + p.1
  {
    var last := |bs| - 1;
    assert bs[..last + 1] == bs;
    ConcatStep(bs, last);
    if k < |Concat(bs[..last])| then
      var p := Locate(bs[..last], k);
      assert bs[..last][..p.0] == bs[..p.0];
      p
    else
      (last, k - |Concat(bs[..last])|)
  }

  /** When some view `f` of every row is `a` on the first row of the first
      block and `b` on every other row, the same holds along their
      concatenation. */
  lemma FirstRowOnly<T>(bs: seq<seq<seq<T>>>, f: seq<T> -> seq<T>, a: seq<T>, b: seq<T>, k: nat)
    requires bs != [] && bs[0] != [] && k < |Concat(bs)|
    requires forall i, off :: 0 <= i < |bs| && 0 <= off < |bs[i]| ==>
      f(bs[i][off]) == if i == 0 && off == 0 then a else b
    ensures f(Concat(bs)[k]) == if k == 0 then a else b
  {
    var p := Locate(bs, k);
    ConcatAt(bs, p.0, p.1);
    if p.0 > 0 {
      LaterBlockStart(bs, p.0);
    } else {
      assert bs[..0] == [];
    }
  }

  /** When every row of every block has `w` cells, so has every row of
      their concatenation. */
  lemma UniformWidth<T>(bs: seq<seq<seq<T>>>, w: nat, k: nat)
    requires forall i, j :: 0 <= i < |bs| && 0 <= j < |bs[i]| ==> |bs[i][j]| == w
    requires k < |Concat(bs)|
    ensures |Concat(bs)[k]| == w
  {
    var p := Locate(bs, k);
    ConcatAt(bs, p.0, p.1);
  }

  /** When the first block is not empty, every later block starts past
      position 0. */
  lemma LaterBlockStart<T>(bs: seq<seq<T>>, i: nat)
    requires 0 < i <= |bs| && bs[0] != []
    ensures |Concat(bs[..i])| > 0
  {
    ConcatStep(bs, 0);
    ConcatPrefix(bs, 1, i);
  }

}
