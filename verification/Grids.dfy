/** The 3x3 coefficient arrays of the templates and of the error record, and the two C structs built from them. */
module Grids {
  import opened Words

  /** A C array `T[3][3]` held by value inside a struct. */
  datatype Grid<T> = Grid(
    p00: T, p01: T, p02: T,
    p10: T, p11: T, p12: T,
    p20: T, p21: T, p22: T)
  {
    function At(i: nat, j: nat): T
      requires i < 3 && j < 3
    {
      if i == 0 then (if j == 0 then p00 else if j == 1 then p01 else p02)
      else if i == 1 then (if j == 0 then p10 else if j == 1 then p11 else p12)
      else (if j == 0 then p20 else if j == 1 then p21 else p22)
    }

    function Put(i: nat, j: nat, v: T): Grid<T>
      requires i < 3 && j < 3
    {
      if i == 0 then
        (if j == 0 then this.(p00 := v) else if j == 1 then this.(p01 := v) else this.(p02 := v))
      else if i == 1 then
        (if j == 0 then this.(p10 := v) else if j == 1 then this.(p11 := v) else this.(p12 := v))
      else
        (if j == 0 then this.(p20 := v) else if j == 1 then this.(p21 := v) else this.(p22 := v))
    }
  }

  /** Storing to one entry changes that entry and no other. */
  lemma PutAt<T>(g: Grid<T>, i: nat, j: nat, v: T, r: nat, c: nat)
    requires i < 3 && j < 3 && r < 3 && c < 3
    ensures g.Put(i, j, v).At(r, c) == if r == i && c == j then v else g.At(r, c)
  {
  }

  function Uniform<T>(v: T): Grid<T> {
    Grid(v, v, v, v, v, v, v, v, v)
  }

  /** template_struct, generic so that the bus monitor can also mark which coefficients were written. */
  datatype Coeffs<T> = Coeffs(a: Grid<T>, b: Grid<T>, i: T, x: T, u: T)

  type Template = Coeffs<s16>

  function Same<T>(v: T): Coeffs<T> {
    Coeffs(Uniform(v), Uniform(v), v, v, v)
  }

  /** error_struct (T = s16), and the 32-bit error registers it is computed from (T = s32). */
  datatype Errors<T> = Errors(u: Grid<T>, x: Grid<T>, i: T)
}
