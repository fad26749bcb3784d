/** The line-item editor shared by purchases, technical sheets, sales, orders
    and production runs: a row is appended empty, removed with
    `splice(index, 1)`, or edited by index. The source edits a shallow copy
    of the array in place; here rows are values and an edit builds a new
    sequence. */
module LineItems {

  /** `[...rows, row]`. */
  function Append<T>(rows: seq<T>, row: T): (r: seq<T>)
    ensures |r| == |rows| + 1
    ensures r[..|rows|] == rows && r[|rows|] == row
  {
    rows + [row]
  }

  /** `copy.splice(index, 1)`: a negative index counts from the end (and is
      clamped to 0); an index past the end removes nothing. */
  function RemoveAt<T>(rows: seq<T>, index: int): (r: seq<T>)
    ensures 0 <= index < |rows| ==> r == rows[..index] + rows[index + 1..]
    ensures index >= |rows| ==> r == rows
    ensures index < 0 && |rows| + index >= 0 ==> r == rows[..|rows| + index] + rows[|rows| + index + 1..]
    ensures index < 0 && |rows| + index < 0 && rows != [] ==> r == rows[1..]
    ensures |r| == if rows != [] && index < |rows| then |rows| - 1 else |rows|
  {
    var start := if index < 0 then (if |rows| + index < 0 then 0 else |rows| + index) else index;
    if start < |rows| then rows[..start] + rows[start + 1..] else rows
  }

  /** Removing the row just appended gives the original rows back. */
  lemma RemoveUndoesAppend<T>(rows: seq<T>, row: T)
    ensures RemoveAt(Append(rows, row), |rows|) == rows
  {
    assert Append(rows, row)[..|rows|] == rows;
  }

  /** Index `-k` names the same row as `|rows| - k`; any index below
      `-|rows|` names the first row. */
  lemma NegativeIndexFromEnd<T>(rows: seq<T>, index: int)
    requires index < 0 && rows != []
    ensures RemoveAt(rows, index) == RemoveAt(rows, if |rows| + index < 0 then 0 else |rows| + index)
  {
  }

  /** Removing row `index` keeps every other row, in order: the rows after
      it move up by one. */
  lemma RemoveKeepsOthers<T>(rows: seq<T>, index: int, j: int)
    requires 0 <= index < |rows| && 0 <= j < |rows| - 1
    ensures RemoveAt(rows, index)[j] == if j < index then rows[j] else rows[j + 1]
  {
  }

  /** `copy[index][field] = value`: row `index` is replaced by its edited
      version and no other row changes. The source throws on an index with no
      row, so one is required. */
  function Update<T>(rows: seq<T>, index: int, edit: T -> T): (r: seq<T>)
    requires 0 <= index < |rows|
    ensures |r| == |rows|
    ensures r[index] == edit(rows[index])
    ensures forall j :: 0 <= j < |rows| && j != index ==> r[j] == rows[j]
  {
    rows[index := edit(rows[index])]
  }

  /** Some value occurs twice. */
  predicate HasRepeat<T(==)>(xs: seq<T>) {
    exists i, j :: 0 <= i < j < |xs| && xs[i] == xs[j]
  }

  /** `new Set(xs).size`. */
  function DistinctCount<T(==)>(xs: seq<T>): nat {
    |set i | 0 <= i < |xs| :: xs[i]|
  }

  /** The purchase screen's test `xs.length !== new Set(xs).size` detects
      exactly a repeated value. */
  lemma {:induction false} DistinctCountDetectsRepeat<T>(xs: seq<T>)
    ensures DistinctCount(xs) <= |xs|
    ensures DistinctCount(xs) != |xs| <==> HasRepeat(xs)
  {
    if xs != [] {
      var t := xs[1..];
      DistinctCountDetectsRepeat(t);
      var sx := set i | 0 <= i < |xs| :: xs[i];
      var st := set i | 0 <= i < |t| :: t[i];
      assert sx == st + {xs[0]} by {
        forall v | v in sx ensures v in st + {xs[0]} {
          var i :| 0 <= i < |xs| && xs[i] == v;
          if i > 0 { assert t[i - 1] == v; }
        }
        forall v | v in st ensures v in sx {
          var i :| 0 <= i < |t| && t[i] == v;
          assert xs[i + 1] == v;
        }
      }
      if xs[0] in st {
        var k :| 0 <= k < |t| && t[k] == xs[0];
        assert xs[k + 1] == xs[0];
        assert sx == st;
      } else {
        assert |sx| == |st| + 1;
        if HasRepeat(xs) {
          var i, j :| 0 <= i < j < |xs| && xs[i] == xs[j];
          if i == 0 {
            assert false;
          }
          assert t[i - 1] == t[j - 1];
        }
        if HasRepeat(t) {
          var i, j :| 0 <= i < j < |t| && t[i] == t[j];
          assert xs[i + 1] == xs[j + 1];
        }
      }
    }
  }

  /** Whether a list holds a repeat does not depend on the order of its
      rows: two lists with the same elements (as a multiset) agree. */
  lemma RepeatIgnoresOrder<T>(xs: seq<T>, ys: seq<T>)
    requires multiset(xs) == multiset(ys)
    ensures HasRepeat(xs) <==> HasRepeat(ys)
  {
    assert |xs| == |multiset(xs)| == |multiset(ys)| == |ys|;
    var sx := set i | 0 <= i < |xs| :: xs[i];
    var sy := set i | 0 <= i < |ys| :: ys[i];
    assert sx == sy by {
      forall v | v in sx ensures v in sy {
        var i :| 0 <= i < |xs| && xs[i] == v;
        assert v in multiset(xs);
        assert v in ys;
      }
      forall v | v in sy ensures v in sx {
        var i :| 0 <= i < |ys| && ys[i] == v;
        assert v in multiset(ys);
        assert v in xs;
      }
    }
    DistinctCountDetectsRepeat(xs);
    DistinctCountDetectsRepeat(ys);
  }
}
