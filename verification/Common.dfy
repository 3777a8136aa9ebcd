/** Datatypes shared by the modules of this project. */
module Common {

  datatype Option<+T> = None | Some(value: T)

  /** A call that either returns a value or throws. */
  datatype Result<+T, +E> = Ok(value: T) | Err(error: E)

  /** `part` stands in `list` from p on. */
  ghost predicate StandsAt<T>(list: seq<T>, p: nat, part: seq<T>) {
    p + |part| <= |list| && forall i {:trigger part[i]} :: 0 <= i < |part| ==> list[p + i] == part[i]
  }

  lemma StandsSplit<T>(list: seq<T>, p: nat, a: seq<T>, b: seq<T>)
    requires StandsAt(list, p, a + b)
    ensures StandsAt(list, p, a) && StandsAt(list, p + |a|, b)
  {
    forall i | 0 <= i < |a| ensures list[p + i] == a[i] { assert (a + b)[i] == a[i]; }
    forall i | 0 <= i < |b| ensures list[p + |a| + i] == b[i] { assert (a + b)[|a| + i] == b[i]; }
  }
}
