/** Sorting the model dropdown by name. The node compares names with
    `localeCompare`; this model uses the ordinal (code point) order instead, a
    total order, and the stable `Array.prototype.sort` as an insertion sort. */
module Ordering {
  import opened Api

  /** `a` sorts no later than `b` in lexicographic code-point order. */
  predicate NameLe(a: string, b: string)
    decreases |a|
  {
    a == [] || (b != [] && (a[0] < b[0] || (a[0] == b[0] && NameLe(a[1..], b[1..]))))
  }

  lemma {:induction false} NameLeTotal(a: string, b: string)
    ensures NameLe(a, b) || NameLe(b, a)
    decreases |a|
  {
    if a != [] && b != [] && a[0] == b[0] {
      NameLeTotal(a[1..], b[1..]);
    }
  }

  lemma {:induction false} NameLeTransitive(a: string, b: string, c: string)
    requires NameLe(a, b) && NameLe(b, c)
    ensures NameLe(a, c)
    decreases |a|
  {
    if a != [] && a[0] == b[0] && b[0] == c[0] {
      NameLeTransitive(a[1..], b[1..], c[1..]);
    }
  }

  lemma {:induction false} NameLeAntisymmetric(a: string, b: string)
    requires NameLe(a, b) && NameLe(b, a)
    ensures a == b
    decreases |a|
  {
    if a != [] {
      NameLeAntisymmetric(a[1..], b[1..]);
      assert a == [a[0]] + a[1..] && b == [b[0]] + b[1..];
    }
  }

  /** Every option sorts no later than every option after it. */
  ghost predicate SortedByName(s: seq<PropertyOption>) {
    forall i, j :: 0 <= i < j < |s| ==> NameLe(s[i].name, s[j].name)
  }

  /** Puts `x` before the first option whose name is not smaller than its own. */
  function InsertByName(x: PropertyOption, s: seq<PropertyOption>): (r: seq<PropertyOption>)
    requires SortedByName(s)
    ensures SortedByName(r)
    ensures multiset(r) == multiset(s) + multiset{x}
  {
    if s == [] then [x]
    else if NameLe(x.name, s[0].name) then
      InsertLeadSorted(x, s);
      [x] + s
    else
      NameLeTotal(x.name, s[0].name);
      var rest := InsertByName(x, s[1..]);
      assert s == [s[0]] + s[1..];
      InsertTailSorted(s[0], rest, x, s[1..]);
      [s[0]] + rest
  }

  lemma InsertLeadSorted(x: PropertyOption, s: seq<PropertyOption>)
    requires SortedByName(s) && s != [] && NameLe(x.name, s[0].name)
    ensures SortedByName([x] + s)
  {
    forall j | 0 < j < |s| + 1 ensures NameLe(x.name, ([x] + s)[j].name) {
      if j > 1 {
        NameLeTransitive(x.name, s[0].name, s[j - 1].name);
      }
    }
  }

  lemma InsertTailSorted(y: PropertyOption, rest: seq<PropertyOption>, x: PropertyOption, tail: seq<PropertyOption>)
    requires SortedByName(rest) && SortedByName([y] + tail)
    requires NameLe(y.name, x.name)
    requires multiset(rest) == multiset(tail) + multiset{x}
    ensures SortedByName([y] + rest)
  {
    forall j | 0 <= j < |rest| ensures NameLe(y.name, rest[j].name) {
      assert rest[j] in multiset(rest);
      if rest[j] != x {
        assert rest[j] in multiset(tail);
        assert rest[j] in tail;
        var k :| 0 <= k < |tail| && tail[k] == rest[j];
        assert ([y] + tail)[k + 1] == rest[j] && ([y] + tail)[0] == y;
        assert NameLe(([y] + tail)[0].name, ([y] + tail)[k + 1].name);
      }
    }
  }

  /** The comparator-driven sort of the option list. */
  function SortByName(s: seq<PropertyOption>): (r: seq<PropertyOption>)
    ensures SortedByName(r)
    ensures multiset(r) == multiset(s)
  {
    if s == [] then []
    else
      assert s == [s[0]] + s[1..];
      InsertByName(s[0], SortByName(s[1..]))
  }

  /** The options of `s` that carry the name `k`, in their order in `s`. */
  function Named(s: seq<PropertyOption>, k: string): seq<PropertyOption> {
    if s == [] then []
    else (if s[0].name == k then [s[0]] else []) + Named(s[1..], k)
  }

  lemma NamedCons(y: PropertyOption, t: seq<PropertyOption>, k: string)
    ensures Named([y] + t, k) == (if y.name == k then [y] else []) + Named(t, k)
  {
    assert ([y] + t)[0] == y && ([y] + t)[1..] == t;
  }

  lemma {:induction false} NamedInsert(x: PropertyOption, s: seq<PropertyOption>, k: string)
    requires SortedByName(s)
    ensures Named(InsertByName(x, s), k) == (if x.name == k then [x] else []) + Named(s, k)
  {
    if s == [] {
      assert InsertByName(x, s) == [x] + s;
      NamedCons(x, s, k);
    } else if NameLe(x.name, s[0].name) {
      assert InsertByName(x, s) == [x] + s;
      NamedCons(x, s, k);
    } else {
      var rest := InsertByName(x, s[1..]);
      assert InsertByName(x, s) == [s[0]] + rest;
      NamedInsert(x, s[1..], k);
      NamedCons(s[0], rest, k);
      NamedCons(s[0], s[1..], k);
      assert [s[0]] + s[1..] == s;
      var lead := if x.name == k then [x] else [];
      if s[0].name == k {
        if x.name == k {
          NameLeReflexive(k);
          assert false;
        }
        assert Named(InsertByName(x, s), k) == [s[0]] + Named(rest, k);
        assert Named(s, k) == [s[0]] + Named(s[1..], k);
        assert lead == [];
      } else {
        assert Named(InsertByName(x, s), k) == Named(rest, k);
        assert Named(s, k) == Named(s[1..], k);
      }
    }
  }

  lemma {:induction false} NameLeReflexive(a: string)
    ensures NameLe(a, a)
    decreases |a|
  {
    if a != [] {
      NameLeReflexive(a[1..]);
    }
  }

  /** The sort is stable: options with equal names keep their input order. */
  lemma {:induction false} SortByNameStable(s: seq<PropertyOption>, k: string)
    ensures Named(SortByName(s), k) == Named(s, k)
  {
    if s != [] {
      SortByNameStable(s[1..], k);
      NamedInsert(s[0], SortByName(s[1..]), k);
    }
  }

  /** Example: ids "b" then "a" come out ordered "a", "b". */
  lemma SortExample(d: Option<string>)
    ensures var a := PropertyOption("a", "a", d); var b := PropertyOption("b", "b", d);
      SortByName([b, a]) == [a, b]
  {
    var a := PropertyOption("a", "a", d);
    var b := PropertyOption("b", "b", d);
    assert [b, a][1..] == [a];
    assert !NameLe("b", "a");
  }
}
