/** Values a table cell can hold, in the terms pandas uses after reading a CSV file. */
module Values {

  /** An optional value. `None` stands for pandas' NaN, NaT and None alike. */
  datatype Option<+T> = None | Some(value: T) {

    /** The held value, or `default` when absent. */
    function GetOr(default: T): T {
      match this
      case Some(v) => v
      case None => default
    }
  }

  /** A raw cell of a column read from a CSV file: empty, a number, or text. */
  datatype Cell = Null | Num(x: real) | Text(s: string)

  /** The two column dtypes the program branches on (`dtype == object` or not). */
  datatype Dtype = Numeric | Object

  /** The dtype pandas infers for a column of raw cells: `object` as soon as one
      cell holds text, and also for every column of a header-only file. */
  function InferDtype<T>(rows: seq<T>, cell: T -> Cell): (d: Dtype)
    ensures d == Numeric <==> |rows| > 0 && forall i :: 0 <= i < |rows| ==> !cell(rows[i]).Text?
  {
    if |rows| > 0 && forall i :: 0 <= i < |rows| ==> !cell(rows[i]).Text? then Numeric else Object
  }

  /** A numeric cell read as a number: `Num` is kept, anything else is absent. */
  function AsNumber(c: Cell): (r: Option<real>)
    ensures r.Some? <==> c.Num?
    ensures c.Num? ==> r.value == c.x
  {
    match c
    case Num(x) => Some(x)
    case _ => None
  }

  /** pandas' `a / b` on two cells: absent when either is, and when `b` is 0
      (where pandas yields an infinity or NaN). */
  function Ratio(a: Option<real>, b: Option<real>): (r: Option<real>)
    ensures r.Some? <==> a.Some? && b.Some? && b.value != 0.0
    ensures r.Some? ==> r.value * b.value == a.value
  {
    if a.Some? && b.Some? && b.value != 0.0 then Some(a.value / b.value) else None
  }
}
