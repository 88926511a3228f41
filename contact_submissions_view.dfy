/**
 * The admin list of contact submissions keeps the set of ids whose cards are
 * expanded; clicking a card toggles its id.
 */
module ContactSubmissionsView {

  /** The set after one toggle of `id`. */
  function Toggled(s: set<int>, id: int): (r: set<int>)
    ensures id in r <==> id !in s
    ensures forall x :: x != id ==> (x in r <==> x in s)
  {
    if id in s then s - {id} else s + {id}
  }

  /** Toggling the same id twice gives back the original set. */
  lemma ToggleTwice(s: set<int>, id: int)
    ensures Toggled(Toggled(s, id), id) == s
  {
    var t := Toggled(s, id);
    assert forall x :: x in Toggled(t, id) <==> x in s;
  }

  /** Toggles of two different ids commute. */
  lemma TogglesCommute(s: set<int>, a: int, b: int)
    ensures Toggled(Toggled(s, a), b) == Toggled(Toggled(s, b), a)
  {
    assert forall x :: x in Toggled(Toggled(s, a), b) <==> x in Toggled(Toggled(s, b), a);
  }

  class ExpandedItems {
    var expanded: set<int>

    constructor ()
      ensures expanded == {}
    {
      expanded := {};
    }

    predicate IsExpanded(id: int)
      reads this
    {
      id in expanded
    }

    /** `toggleExpanded`: copy the set, then delete the id if present or add it if not. */
    method ToggleExpanded(id: int)
      modifies this`expanded
      ensures expanded == Toggled(old(expanded), id)
    {
      var newSet := expanded;
      if id in newSet {
        newSet := newSet - {id};
      } else {
        newSet := newSet + {id};
      }
      expanded := newSet;
    }
  }
}
