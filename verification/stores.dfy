/** A collection of documents keyed by identifier, and its query by foreign key
    (the repositories' derived `findByWorkoutId` / `findByExerciseId`). */
module Stores {
  import opened Model

  /** Every document is stored under its own identifier. */
  ghost predicate KeyedById<T>(m: map<Id, T>, idOf: T -> Id)
  {
    forall k :: k in m ==> idOf(m[k]) == k
  }

  /** The documents stored under a key in `ks` whose foreign key `parent` is `pid`. */
  ghost function ChildrenAmong<T>(m: map<Id, T>, ks: set<Id>, parent: T -> Id, pid: Id): set<T>
  {
    set k | k in ks && k in m && parent(m[k]) == pid :: m[k]
  }

  /** All documents of `m` whose foreign key is `pid`. */
  ghost function Children<T>(m: map<Id, T>, parent: T -> Id, pid: Id): set<T>
  {
    ChildrenAmong(m, m.Keys, parent, pid)
  }

  /** Looking at one more key adds its document exactly when it is a child, and never twice. */
  lemma ChildrenAmongStep<T>(m: map<Id, T>, idOf: T -> Id, ks: set<Id>, k: Id, parent: T -> Id, pid: Id)
    requires KeyedById(m, idOf)
    requires k in m && k !in ks
    ensures multiset(ChildrenAmong(m, ks + {k}, parent, pid)) ==
            multiset(ChildrenAmong(m, ks, parent, pid)) + (if parent(m[k]) == pid then multiset{m[k]} else multiset{})
  {
    var before := ChildrenAmong(m, ks, parent, pid);
    var after := ChildrenAmong(m, ks + {k}, parent, pid);
    if parent(m[k]) == pid {
      assert after == before + {m[k]};
      assert m[k] !in before;
      assert multiset(after) == multiset(before) + multiset{m[k]};
    } else {
      assert after == before;
    }
  }

  /** The query by foreign key: each child once, in the order the store happens to return them. */
  method FindByParent<T>(m: map<Id, T>, parent: T -> Id, pid: Id, ghost idOf: T -> Id) returns (r: seq<T>)
    requires KeyedById(m, idOf)
    ensures multiset(r) == multiset(Children(m, parent, pid))
  {
    var todo := m.Keys;
    r := [];
    while todo != {}
      invariant todo <= m.Keys
      invariant multiset(r) == multiset(ChildrenAmong(m, m.Keys - todo, parent, pid))
      decreases todo
    {
      var k :| k in todo;
      ChildrenAmongStep(m, idOf, m.Keys - todo, k, parent, pid);
      assert (m.Keys - todo) + {k} == m.Keys - (todo - {k});
      if parent(m[k]) == pid {
        r := [m[k]] + r;
      }
      todo := todo - {k};
    }
    assert m.Keys - todo == m.Keys;
  }

  /** Deleting one document removes exactly it from its parent's children. */
  lemma ChildrenAfterRemove<T>(m: map<Id, T>, idOf: T -> Id, k: Id, parent: T -> Id, pid: Id)
    requires KeyedById(m, idOf) && k in m
    ensures Children(m - {k}, parent, pid) == Children(m, parent, pid) - {m[k]}
  {
    var after, before := Children(m - {k}, parent, pid), Children(m, parent, pid);
    forall x | x in after ensures x in before - {m[k]} {
      var j :| j in (m - {k}) && parent((m - {k})[j]) == pid && (m - {k})[j] == x;
      assert idOf(m[j]) == j;
    }
    forall x | x in before - {m[k]} ensures x in after {
      var j :| j in m && parent(m[j]) == pid && m[j] == x;
      assert j in m - {k};
    }
  }
}
