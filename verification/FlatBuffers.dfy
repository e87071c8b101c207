/** Matrices as the kernels see them: one buffer, row after row. */
module FlatBuffers {
  ghost function Flatten<T>(rows: seq<seq<T>>): seq<T> {
    if rows == [] then [] else Flatten(rows[..|rows| - 1]) + rows[|rows| - 1]
  }

  ghost predicate AllWide<T>(rows: seq<seq<T>>, width: nat) {
    forall i :: 0 <= i < |rows| ==> |rows[i]| == width
  }

  /** The elements of `row` stand in `buffer` from `base` on. */
  ghost predicate StandsAt<T>(buffer: seq<T>, base: nat, row: seq<T>) {
    base + |row| <= |buffer| && buffer[base..base + |row|] == row
  }

  lemma {:induction false} FlattenSize<T>(rows: seq<seq<T>>, width: nat)
    requires AllWide(rows, width)
    ensures |Flatten(rows)| == |rows| * width
  {
    if rows != [] {
      FlattenSize(rows[..|rows| - 1], width);
      NextRow(|rows| - 1, width);
    }
  }

  lemma NextRow(n: nat, width: nat)
    ensures (n + 1) * width == n * width + width
  {}

  /** Row `i` begins at offset `i * width`. */
  lemma {:induction false} RowStandsAt<T>(rows: seq<seq<T>>, width: nat, i: nat)
    requires AllWide(rows, width) && i < |rows|
    ensures StandsAt(Flatten(rows), i * width, rows[i])
  {
    var n := |rows| - 1;
    FlattenSize(rows[..n], width);
    if i < n {
      RowStandsAt(rows[..n], width, i);
      assert Flatten(rows)[..|Flatten(rows[..n])|] == Flatten(rows[..n]);
    }
  }

  /** Element `j` of row `i` stands at offset `i * width + j`. */
  lemma ElementStandsAt<T>(rows: seq<seq<T>>, width: nat, i: nat, j: nat)
    requires AllWide(rows, width) && i < |rows| && j < width
    ensures i * width + j < |Flatten(rows)| && Flatten(rows)[i * width + j] == rows[i][j]
  {
    RowStandsAt(rows, width, i);
    var base := i * width;
    assert Flatten(rows)[base..base + width][j] == rows[i][j];
  }

  lemma FlattenMore<T>(rows: seq<seq<T>>, row: seq<T>)
    ensures Flatten(rows + [row]) == Flatten(rows) + row
  {
    assert (rows + [row])[..|rows|] == rows;
  }
}
