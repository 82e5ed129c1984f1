/** What several modules share. */
module Common {

  datatype Option<T> = None | Some(value: T)

  function AsOne(b: bool): nat { if b then 1 else 0 }

  ghost predicate Distinct<T>(q: seq<T>) {
    forall i, j :: 0 <= i < j < |q| ==> q[i] != q[j]
  }
}
