/** Iterating over a set. */
module Sets {
  /** Some element of a set; which one is left open. */
  method Pick<T(==)>(ids: set<T>) returns (id: T)
    requires ids != {}
    ensures id in ids
  {
    id :| id in ids;
  }

  lemma OneLess<T>(ids: set<T>) returns (id: T, rest: set<T>)
    requires ids != {}
    ensures id in ids && rest == ids - {id} && |ids| == |rest| + 1
  {
    id :| id in ids;
    rest := ids - {id};
    assert ids == rest + {id};
  }
}
