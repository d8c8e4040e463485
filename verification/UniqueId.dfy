/** The id allocator unique_id_generator<T>: ids are handed out just below the smallest or
    just above the largest one in use. */
module UniqueId {

  lemma {:induction false} FirstOf(s: set<nat>) returns (m: nat)
    requires s != {}
    ensures m in s && forall x :: x in s ==> m <= x
    decreases s
  {
    var a :| a in s;
    var rest := s - {a};
    m := a;
    if rest != {} {
      var n := FirstOf(rest);
      m := if n < a then n else a;
    }
    assert forall x :: x in s ==> x == a || x in rest;
  }

  lemma {:induction false} LastOf(s: set<nat>) returns (m: nat)
    requires s != {}
    ensures m in s && forall x :: x in s ==> x <= m
    decreases s
  {
    var a :| a in s;
    var rest := s - {a};
    m := a;
    if rest != {} {
      var n := LastOf(rest);
      m := if n < a then a else n;
    }
    assert forall x :: x in s ==> x == a || x in rest;
  }

  lemma HasEnds(s: set<nat>)
    requires s != {}
    ensures exists m :: m in s && forall x :: x in s ==> m <= x
    ensures exists m :: m in s && forall x :: x in s ==> x <= m
  {
    var a := FirstOf(s);
    var b := LastOf(s);
  }

  // *begin() and *--end() of an ordered set
  function First(s: set<nat>): (m: nat)
    requires s != {}
    ensures m in s && forall x :: x in s ==> m <= x
  {
    HasEnds(s);
    var m :| m in s && forall x :: x in s ==> m <= x;
    m
  }

  function Last(s: set<nat>): (m: nat)
    requires s != {}
    ensures m in s && forall x :: x in s ==> x <= m
  {
    HasEnds(s);
    var m :| m in s && forall x :: x in s ==> x <= m;
    m
  }

  class IdGenerator {
    const max: nat  // the largest value of T
    var orderedSet: set<nat>
    ghost var calls: nat  // calls of Next so far

    // An id in use is positive, fits T, and is no larger than the number of calls so far.
    ghost predicate Valid()
      reads this
    {
      max > 0 && forall x :: x in orderedSet ==> 1 <= x <= max && x <= calls
    }

    // Both ends of the range are in use; the ids in between do not matter.
    predicate Exhausted()
      reads this
    {
      1 in orderedSet && max in orderedSet
    }

    constructor (max: nat)
      requires max > 0
      ensures Valid() && orderedSet == {} && calls == 0 && this.max == max
    {
      this.max := max;
      orderedSet, calls := {}, 0;
    }

    function GetBorder(): (nat, nat)
      reads this
    {
      if orderedSet == {} then (0, 0) else (First(orderedSet), Last(orderedSet))
    }

    // 0, and nothing new, exactly when exhausted, which takes at least max calls before;
    // otherwise an id that was not in use: the one just below all ids in use if there is one,
    // else the one just above them, and 1 to begin with.
    method Next() returns (id: nat)
      requires Valid()
      modifies this`orderedSet, this`calls
      ensures Valid() && calls == old(calls) + 1
      ensures id == 0 <==> old(Exhausted())
      ensures old(Exhausted()) ==> old(calls) >= max
      ensures id == 0 ==> orderedSet == old(orderedSet)
      ensures id != 0 ==> 1 <= id <= max && id !in old(orderedSet) && orderedSet == old(orderedSet) + {id}
      ensures id != 0 && old(orderedSet) == {} ==> id == 1
      ensures id != 0 && old(orderedSet) != {} ==>
                if 1 in old(orderedSet) then id - 1 in old(orderedSet) && forall x :: x in old(orderedSet) ==> x < id
                else id + 1 in old(orderedSet) && forall x :: x in old(orderedSet) ==> id < x
    {
      calls := calls + 1;
      var (min, top) := GetBorder();
      if min > 1 {
        orderedSet := orderedSet + {min - 1};
        return min - 1;
      } else if top < max {
        orderedSet := orderedSet + {top + 1};
        return top + 1;
      }
      return 0;
    }

    method Remove(id: nat) returns (found: bool)
      requires Valid()
      modifies this`orderedSet
      ensures Valid() && found == (id in old(orderedSet)) && orderedSet == old(orderedSet) - {id}
    {
      if id in orderedSet {
        orderedSet := orderedSet - {id};
        return true;
      }
      return false;
    }
  }
}
