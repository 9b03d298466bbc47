/** Array operations the source writes with `filter`, `includes` and spread. */
module Lists {

  /** `s.filter(e => e !== x)` */
  function Remove<T(==)>(s: seq<T>, x: T): seq<T> {
    if s == [] then [] else (if s[0] == x then [] else [s[0]]) + Remove(s[1..], x)
  }

  /** `s.includes(x) ? s.filter(e => e !== x) : [...s, x]` */
  function Toggle<T(==)>(s: seq<T>, x: T): seq<T> {
    if x in s then Remove(s, x) else s + [x]
  }

  /** `s.filter(p)` */
  function Filter<T>(s: seq<T>, p: T -> bool): seq<T> {
    if s == [] then [] else (if p(s[0]) then [s[0]] else []) + Filter(s[1..], p)
  }

  /** r is s with some elements left out, the others kept in their order. */
  predicate IsSubsequence<T(==)>(r: seq<T>, s: seq<T>) {
    r == [] || (s != [] && if r[0] == s[0] then IsSubsequence(r[1..], s[1..]) else IsSubsequence(r, s[1..]))
  }

  lemma {:induction false} RemoveMembers<T>(s: seq<T>, x: T)
    ensures forall y :: y in Remove(s, x) <==> y in s && y != x
    ensures x !in s ==> Remove(s, x) == s
    ensures |Remove(s, x)| <= |s|
  {
    if s != [] {
      RemoveMembers(s[1..], x);
      assert s == [s[0]] + s[1..];
    }
  }

  lemma {:induction false} FilterMembers<T>(s: seq<T>, p: T -> bool)
    ensures forall y :: y in Filter(s, p) <==> y in s && p(y)
    ensures |Filter(s, p)| <= |s|
  {
    if s != [] {
      FilterMembers(s[1..], p);
      assert s == [s[0]] + s[1..];
    }
  }

  lemma {:induction false} FilterIsSubsequence<T>(s: seq<T>, p: T -> bool)
    ensures IsSubsequence(Filter(s, p), s)
  {
    if s != [] {
      FilterIsSubsequence(s[1..], p);
      var r := Filter(s, p);
      if p(s[0]) {
        assert r[0] == s[0] && r[1..] == Filter(s[1..], p);
      } else {
        assert r == Filter(s[1..], p);
        if r != [] && r[0] == s[0] {
          SubsequenceTail(r, s[1..]);
        }
      }
    }
  }

  lemma {:induction false} SubsequenceTail<T>(r: seq<T>, s: seq<T>)
    requires r != [] && IsSubsequence(r, s)
    ensures IsSubsequence(r[1..], s)
    decreases 2 * |s|
  {
    if r[0] != s[0] {
      SubsequenceTail(r, s[1..]);
      SubsequenceWeaken(r[1..], s[1..], s[0]);
      assert [s[0]] + s[1..] == s;
    } else {
      SubsequenceWeaken(r[1..], s[1..], s[0]);
      assert [s[0]] + s[1..] == s;
    }
  }

  lemma {:induction false} SubsequenceWeaken<T>(r: seq<T>, s: seq<T>, x: T)
    requires IsSubsequence(r, s)
    ensures IsSubsequence(r, [x] + s)
    decreases 2 * |s| + 1
  {
    if r != [] && r[0] == x {
      assert ([x] + s)[1..] == s;
      if r[1..] != [] {
        SubsequenceTail(r, s);
      }
    } else {
      assert ([x] + s)[1..] == s;
    }
  }

  lemma {:induction false} FilterAppend<T>(s: seq<T>, x: T, p: T -> bool)
    ensures Filter(s + [x], p) == Filter(s, p) + (if p(x) then [x] else [])
  {
    if s == [] {
      assert [x][1..] == [];
    } else {
      var head := if p(s[0]) then [s[0]] else [];
      var last := if p(x) then [x] else [];
      assert (s + [x])[0] == s[0] && (s + [x])[1..] == s[1..] + [x];
      FilterAppend(s[1..], x, p);
      assert Filter(s + [x], p) == head + Filter(s[1..] + [x], p);
      assert Filter(s, p) == head + Filter(s[1..], p);
      assert head + (Filter(s[1..], p) + last) == (head + Filter(s[1..], p)) + last;
    }
  }

  lemma {:induction false} FilterKeepsAll<T>(s: seq<T>, p: T -> bool)
    requires forall i :: 0 <= i < |s| ==> p(s[i])
    ensures Filter(s, p) == s
  {
    if s != [] {
      FilterKeepsAll(s[1..], p);
      assert s == [s[0]] + s[1..];
    }
  }

  /** Toggling removes a present id (every copy of it), keeping the others in order, and appends an absent one. */
  lemma ToggleEffect<T>(s: seq<T>, x: T)
    ensures x in s ==> x !in Toggle(s, x) && forall y :: y != x ==> (y in Toggle(s, x) <==> y in s)
    ensures x in s ==> IsSubsequence(Toggle(s, x), s)
    ensures x !in s ==> Toggle(s, x) == s + [x]
  {
    RemoveMembers(s, x);
    RemoveIsSubsequence(s, x);
  }

  lemma {:induction false} RemoveIsSubsequence<T>(s: seq<T>, x: T)
    ensures IsSubsequence(Remove(s, x), s)
  {
    if s != [] {
      RemoveIsSubsequence(s[1..], x);
      var r := Remove(s, x);
      if s[0] != x {
        assert r[0] == s[0] && r[1..] == Remove(s[1..], x);
      } else {
        assert r == Remove(s[1..], x);
        if r != [] && r[0] == s[0] {
          SubsequenceTail(r, s[1..]);
        }
      }
    }
  }

  /** Toggling twice gives back the same set of ids; from an absent id, the very same list. */
  lemma ToggleTwice<T>(s: seq<T>, x: T)
    ensures forall y :: y in Toggle(Toggle(s, x), x) <==> y in s
    ensures x !in s ==> Toggle(Toggle(s, x), x) == s
  {
    RemoveMembers(s, x);
    if x in s {
      RemoveMembers(Remove(s, x), x);
    } else {
      RemoveMembers(s + [x], x);
      RemoveAppended(s, x);
    }
  }

  lemma {:induction false} RemoveAppended<T>(s: seq<T>, x: T)
    requires x !in s
    ensures Remove(s + [x], x) == s
  {
    if s == [] {
      assert [x][1..] == [];
    } else {
      assert (s + [x])[1..] == s[1..] + [x];
      RemoveAppended(s[1..], x);
      assert s == [s[0]] + s[1..];
    }
  }

  /** Only position k satisfies p. */
  predicate OnlyMatch<T>(s: seq<T>, p: T -> bool, k: int) {
    0 <= k < |s| && p(s[k]) && forall i :: 0 <= i < |s| && i != k ==> !p(s[i])
  }

  lemma {:induction false} FilterNone<T>(s: seq<T>, p: T -> bool)
    requires forall i :: 0 <= i < |s| ==> !p(s[i])
    ensures Filter(s, p) == []
  {
    if s != [] {
      FilterNone(s[1..], p);
    }
  }

  /** Filtering keeps exactly one element precisely when exactly one position satisfies p. */
  lemma {:induction false} FilterSingle<T>(s: seq<T>, p: T -> bool)
    ensures |Filter(s, p)| == 1 <==> exists k :: OnlyMatch(s, p, k)
    ensures forall k :: OnlyMatch(s, p, k) ==> Filter(s, p) == [s[k]]
  {
    if s != [] {
      FilterSingle(s[1..], p);
      var t := s[1..];
      forall k | OnlyMatch(s, p, k) ensures Filter(s, p) == [s[k]] {
        if k == 0 {
          FilterNone(t, p);
        } else {
          assert OnlyMatch(t, p, k - 1);
        }
      }
      if |Filter(s, p)| == 1 {
        if p(s[0]) {
          assert Filter(t, p) == [];
          forall i | 0 <= i < |t| ensures !p(t[i]) {
            FilterMembers(t, p);
          }
          assert OnlyMatch(s, p, 0);
        } else {
          var j :| OnlyMatch(t, p, j);
          assert OnlyMatch(s, p, j + 1);
        }
      }
    }
  }
}
