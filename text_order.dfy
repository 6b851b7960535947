/** Ascending order on text values (code-point lexicographic order, a proper
    prefix first) and on (department, priority) pairs, the order of
    `order_by('assigned_department', 'priority')`. */
module TextOrder {

  /** `a` sorts strictly before `b`. */
  predicate Less(a: string, b: string)
    decreases |a|
  {
    if a == [] then b != []
    else if b == [] then false
    else if a[0] != b[0] then a[0] < b[0]
    else Less(a[1..], b[1..])
  }

  lemma {:induction false} LessIrreflexive(a: string)
    ensures !Less(a, a)
    decreases |a|
  {
    if a != [] {
      LessIrreflexive(a[1..]);
    }
  }

  lemma {:induction false} LessTransitive(a: string, b: string, c: string)
    requires Less(a, b) && Less(b, c)
    ensures Less(a, c)
    decreases |a|
  {
    if a != [] && a[0] == b[0] && b[0] == c[0] {
      LessTransitive(a[1..], b[1..], c[1..]);
    }
  }

  lemma {:induction false} LessTotal(a: string, b: string)
    ensures a == b || Less(a, b) || Less(b, a)
    decreases |a|
  {
    if a != [] && b != [] && a[0] == b[0] {
      LessTotal(a[1..], b[1..]);
      if a[1..] == b[1..] {
        assert a == [a[0]] + a[1..] && b == [b[0]] + b[1..];
      }
    }
  }

  /** The grouping key of a complaint: (assigned department, priority). */
  type GroupKey = (string, string)

  /** Ascending by department, then by priority. */
  predicate KeyLess(k: GroupKey, l: GroupKey) {
    Less(k.0, l.0) || (k.0 == l.0 && Less(k.1, l.1))
  }

  lemma KeyLessIrreflexive(k: GroupKey)
    ensures !KeyLess(k, k)
  {
    LessIrreflexive(k.0);
    LessIrreflexive(k.1);
  }

  lemma KeyLessTransitive(k: GroupKey, l: GroupKey, m: GroupKey)
    requires KeyLess(k, l) && KeyLess(l, m)
    ensures KeyLess(k, m)
  {
    if Less(k.0, l.0) && Less(l.0, m.0) {
      LessTransitive(k.0, l.0, m.0);
    } else if k.0 == l.0 && l.0 == m.0 {
      LessTransitive(k.1, l.1, m.1);
    }
  }

  lemma KeyLessTotal(k: GroupKey, l: GroupKey)
    ensures k == l || KeyLess(k, l) || KeyLess(l, k)
  {
    LessTotal(k.0, l.0);
    LessTotal(k.1, l.1);
  }

  /** Keys in strictly ascending order, hence without repeats. */
  predicate StrictlyAscending(ks: seq<GroupKey>) {
    forall i, j :: 0 <= i < j < |ks| ==> KeyLess(ks[i], ks[j])
  }

  lemma AscendingHasNoRepeats(ks: seq<GroupKey>, i: int, j: int)
    requires StrictlyAscending(ks)
    requires 0 <= i < |ks| && 0 <= j < |ks| && i != j
    ensures ks[i] != ks[j]
  {
    if i < j {
      KeyLessIrreflexive(ks[i]);
    } else {
      KeyLessIrreflexive(ks[j]);
    }
  }
}
