/** `get_duplicates`: every element that was already seen earlier in the
    list, in input order. Both source files carry the same definition. */
module Duplication {
  import opened Seqs

  /** The reference definition: walk the list, and keep the current element
      when it occurs in the part already walked. */
  function Duplicates<T(==)>(s: seq<T>): seq<T> {
    if s == [] then []
    else
      var init := s[..|s| - 1];
      Duplicates(init) + (if s[|s| - 1] in init then [s[|s| - 1]] else [])
  }

  function ToSet<T(==)>(s: seq<T>): set<T> {
    set x | x in s
  }

  /** The source's loop over a `seen` set. */
  method GetDuplicates<T(==)>(lst: seq<T>) returns (duplicates: seq<T>)
    ensures duplicates == Duplicates(lst)
  {
    var seen: set<T> := {};
    duplicates := [];
    var i := 0;
    while i < |lst|
      invariant 0 <= i <= |lst|
      invariant seen == ToSet(lst[..i])
      invariant duplicates == Duplicates(lst[..i])
    {
      var item := lst[i];
      assert lst[..i + 1][..i] == lst[..i];
      if item in seen {
        duplicates := duplicates + [item];
      }
      seen := seen + {item};
      i := i + 1;
    }
    assert lst[..|lst|] == lst;
  }

  /** Each value occurs in the result once less often than in the input. */
  lemma {:induction false} DuplicatesCount<T>(s: seq<T>, x: T)
    ensures multiset(Duplicates(s))[x] == if x in s then multiset(s)[x] - 1 else 0
  {
    if s != [] {
      var init, y := s[..|s| - 1], s[|s| - 1];
      assert s == init + [y];
      DuplicatesCount(init, x);
    }
  }

  /** The result is empty exactly when no element repeats. */
  lemma {:induction false} DuplicatesEmptyIff<T>(s: seq<T>)
    ensures Duplicates(s) == [] <==> Distinct(s)
  {
    if s != [] {
      var init, y := s[..|s| - 1], s[|s| - 1];
      assert s == init + [y];
      DuplicatesEmptyIff(init);
      if y in init {
        var j :| 0 <= j < |init| && init[j] == y;
        assert s[j] == s[|s| - 1];
      }
      assert Distinct(s) <==> Distinct(init) && y !in init;
    }
  }

  /** The result is as long as the input minus its number of distinct values. */
  lemma {:induction false} DuplicatesLength<T>(s: seq<T>)
    ensures |Duplicates(s)| == |s| - |ToSet(s)|
  {
    if s != [] {
      var init, y := s[..|s| - 1], s[|s| - 1];
      assert s == init + [y];
      DuplicatesLength(init);
      assert ToSet(s) == ToSet(init) + {y};
      assert y in init <==> y in ToSet(init);
    }
  }

  /** The result is the in-order list of exactly those positions whose element
      occurs earlier. */
  lemma {:induction false} DuplicatesPositions<T>(s: seq<T>) returns (idx: seq<nat>)
    ensures IsIndexing(Duplicates(s), s, idx)
    ensures forall i :: 0 <= i < |s| ==> (s[i] in s[..i] <==> i in idx)
  {
    if s == [] {
      idx := [];
    } else {
      var init, y := s[..|s| - 1], s[|s| - 1];
      assert s == init + [y];
      var prev := DuplicatesPositions(init);
      SnocIndexing(Duplicates(init), init, prev, y);
      assert forall i :: 0 <= i < |init| ==> s[..i] == init[..i];
      if y in init {
        idx := prev + [|init|];
      } else {
        idx := prev;
      }
    }
  }

  /** The documented example `[1, 2, 2, 3, 4, 4, 5]` gives `[2, 4]`, for
      any five different values in those places. */
  lemma DuplicatesExample<T>(a: T, b: T, c: T, d: T, e: T)
    requires Distinct([a, b, c, d, e])
    ensures Duplicates([a, b, b, c, d, d, e]) == [b, d]
  {
    assert a != b && a != c && a != d && a != e && b != c && b != d && b != e && c != d && c != e && d != e by {
      var s := [a, b, c, d, e];
      assert s[0] != s[1] && s[0] != s[2] && s[0] != s[3] && s[0] != s[4];
      assert s[1] != s[2] && s[1] != s[3] && s[1] != s[4] && s[2] != s[3] && s[2] != s[4] && s[3] != s[4];
    }
    assert Duplicates([a]) == [] by {
      assert [a][..0] == [];
    }
    assert Duplicates([a, b]) == [] by {
      assert [a, b][..1] == [a];
    }
    assert Duplicates([a, b, b]) == [b] by {
      assert [a, b, b][..2] == [a, b];
    }
    assert Duplicates([a, b, b, c]) == [b] by {
      assert [a, b, b, c][..3] == [a, b, b];
    }
    assert Duplicates([a, b, b, c, d]) == [b] by {
      assert [a, b, b, c, d][..4] == [a, b, b, c];
    }
    assert Duplicates([a, b, b, c, d, d]) == [b, d] by {
      assert [a, b, b, c, d, d][..5] == [a, b, b, c, d];
    }
    assert Duplicates([a, b, b, c, d, d, e]) == [b, d] by {
      assert [a, b, b, c, d, d, e][..6] == [a, b, b, c, d, d];
    }
  }

  /** A value seen three times is reported twice. */
  lemma DuplicatesRepeatedExample<T>(a: T, b: T, c: T)
    requires a != b && a != c && b != c
    ensures Duplicates([a, b, a, c, a]) == [a, a]
  {
    assert Duplicates([a]) == [] by {
      assert [a][..0] == [];
    }
    assert Duplicates([a, b]) == [] by {
      assert [a, b][..1] == [a];
    }
    assert Duplicates([a, b, a]) == [a] by {
      assert [a, b, a][..2] == [a, b];
    }
    assert Duplicates([a, b, a, c]) == [a] by {
      assert [a, b, a, c][..3] == [a, b, a];
    }
    assert Duplicates([a, b, a, c, a]) == [a, a] by {
      assert [a, b, a, c, a][..4] == [a, b, a, c];
    }
  }
}
