/** The two result shapes the modules share: a missing value (Python's None, SQL's NULL)
    and a call that may raise. */
module Wrappers {
  datatype Option<+T> = None | Some(value: T)

  datatype Result<+T> = Ok(value: T) | Err(message: string)
}

/** Sequence facts that the batch loops share. */
module Slices {
  lemma TakeThenSlice<T>(s: seq<T>, i: int, j: int)
    requires 0 <= i <= j <= |s|
    ensures s[..i] + s[i..j] == s[..j]
  {
  }
}

/** Taking an element out of a set, as loops over query results do. */
module Picking {
  lemma Member<T>(s: set<T>) returns (x: T)
    requires s != {}
    ensures x in s
  {
    x :| x in s;
  }

  method Pick(s: set<int>) returns (x: int)
    requires s != {}
    ensures x in s
  {
    ghost var member := Member(s);
    x :| x in s;
  }
}
