/** Failure types shared by the models of every crate. */
module Prelude {
  datatype Option<+T> = None | Some(value: T)

  datatype Result<+T, +E> = Ok(value: T) | Err(error: E)

  function OrElse<T>(first: Option<T>, second: Option<T>): Option<T> {
    if first.Some? then first else second
  }

  /** No element occurs at two positions. */
  ghost predicate NoDuplicates<T(!new)>(s: seq<T>) {
    forall i, j :: 0 <= i < j < |s| ==> s[i] != s[j]
  }

  /** Pigeonhole: a sequence longer than the set it draws from repeats an element. */
  lemma {:induction false} Pigeonhole<T(!new)>(s: seq<T>, pool: set<T>)
    requires forall i :: 0 <= i < |s| ==> s[i] in pool
    requires |s| > |pool|
    ensures !NoDuplicates(s)
    decreases |s|
  {
    var last := s[|s| - 1];
    var init := s[..|s| - 1];
    if last !in init {
      forall i | 0 <= i < |init|
        ensures init[i] in pool - {last}
      {
        assert init[i] in init;
      }
      Pigeonhole(init, pool - {last});
      var i, j :| 0 <= i < j < |init| && init[i] == init[j];
      assert s[i] == s[j];
    } else {
      var i :| 0 <= i < |init| && init[i] == last;
      assert s[i] == s[|s| - 1];
    }
  }

  // ---- First and last elements with a property ----

  ghost predicate NoneHolds<T(!new)>(s: seq<T>, p: T -> bool) {
    forall i :: 0 <= i < |s| ==> !p(s[i])
  }

  /** Position `i` is the last to have the property. */
  ghost predicate LastAt<T(!new)>(s: seq<T>, p: T -> bool, i: nat) {
    i < |s| && p(s[i]) && forall j :: i < j < |s| ==> !p(s[j])
  }

  /** Position `i` is the first to have the property. */
  ghost predicate FirstAt<T(!new)>(s: seq<T>, p: T -> bool, i: nat) {
    i < |s| && p(s[i]) && forall j :: 0 <= j < i ==> !p(s[j])
  }

  /** How one more element changes them. */
  lemma OneMore<T(!new)>(s: seq<T>, p: T -> bool, i: nat)
    requires s != []
    ensures var init, n := s[..|s| - 1], |s| - 1;
            && (NoneHolds(s, p) <==> NoneHolds(init, p) && !p(s[n]))
            && (LastAt(s, p, i) <==> if i == n then p(s[n]) else LastAt(init, p, i) && !p(s[n]))
            && (FirstAt(s, p, i) <==> if i == n then p(s[n]) && NoneHolds(init, p) else FirstAt(init, p, i))
  {
    var init, n := s[..|s| - 1], |s| - 1;
    assert forall j :: 0 <= j < n ==> init[j] == s[j];
  }

  lemma IsThere<T(!new)>(s: seq<T>, p: T -> bool, i: nat)
    requires LastAt(s, p, i) || FirstAt(s, p, i)
    ensures i < |s| && p(s[i])
  {
  }
}
