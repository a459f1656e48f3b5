/** Small facts about finite sets used by the loops that walk a table's keys. */
module Sets {
  lemma DoneStep<T>(all: set<T>, done: set<T>, todo: set<T>, k: T)
    requires done <= all && todo == all - done && k in todo
    ensures done + {k} <= all && todo - {k} == all - (done + {k}) && k !in done
  {
  }

  lemma CountStep<T>(done: set<T>, accepted: set<T>, k: T)
    requires k !in done
    ensures |(done + {k}) * accepted| == |done * accepted| + (if k in accepted then 1 else 0)
  {
    if k in accepted {
      assert (done + {k}) * accepted == done * accepted + {k};
    } else {
      assert (done + {k}) * accepted == done * accepted;
    }
  }

  lemma CardAddOne<T>(a: set<T>, x: T)
    requires x !in a
    ensures |a + {x}| == |a| + 1
  {
  }

  lemma SubsetCard<T>(a: set<T>, b: set<T>)
    requires a <= b
    ensures |a| <= |b|
  {
    assert b == a + (b - a);
  }
}
