/** The fixed order in which resource keys are requested, and the sort that establishes it. */
module KeyOrder {
  import opened Schema

  /** A requested lock: its normalized key and the key as the caller wrote it. */
  datatype Entry = Entry(key: Key, raw: string)

  /** Lexicographic order on strings, as Python compares them. */
  predicate StringLe(a: string, b: string)
  {
    a == [] || (b != [] && (a[0] < b[0] || (a[0] == b[0] && StringLe(a[1..], b[1..]))))
  }

  lemma {:induction false} StringLeTotal(a: string, b: string)
    ensures StringLe(a, b) || StringLe(b, a)
    ensures StringLe(a, b) && StringLe(b, a) ==> a == b
  {
    if a != [] && b != [] {
      StringLeTotal(a[1..], b[1..]);
      assert a == [a[0]] + a[1..] && b == [b[0]] + b[1..];
    }
  }

  lemma {:induction false} StringLeTransitive(a: string, b: string, c: string)
    requires StringLe(a, b) && StringLe(b, c)
    ensures StringLe(a, c)
  {
    if a != [] && b != [] && c != [] && a[0] == b[0] == c[0] {
      StringLeTransitive(a[1..], b[1..], c[1..]);
    }
  }

  /** Order on (scope, scope_key, type, normalized_key) tuples. */
  predicate KeyLe(a: Key, b: Key)
  {
    if a.scope != b.scope then StringLe(a.scope, b.scope)
    else if a.scopeKey != b.scopeKey then StringLe(a.scopeKey, b.scopeKey)
    else if a.kind != b.kind then StringLe(a.kind, b.kind)
    else StringLe(a.name, b.name)
  }

  lemma KeyLeTotal(a: Key, b: Key)
    ensures KeyLe(a, b) || KeyLe(b, a)
    ensures KeyLe(a, b) && KeyLe(b, a) ==> a == b
  {
    StringLeTotal(a.scope, b.scope);
    StringLeTotal(a.scopeKey, b.scopeKey);
    StringLeTotal(a.kind, b.kind);
    StringLeTotal(a.name, b.name);
  }

  lemma StringLeChain(a: string, b: string, c: string)
    ensures StringLe(a, b) && StringLe(b, c) ==> StringLe(a, c)
    ensures StringLe(a, b) && StringLe(b, a) ==> a == b
  {
    StringLeTotal(a, b);
    if StringLe(a, b) && StringLe(b, c) {
      StringLeTransitive(a, b, c);
    }
  }

  lemma KeyLeTransitive(a: Key, b: Key, c: Key)
    requires KeyLe(a, b) && KeyLe(b, c)
    ensures KeyLe(a, c)
  {
    StringLeChain(a.scope, b.scope, c.scope);
    StringLeChain(a.scopeKey, b.scopeKey, c.scopeKey);
    StringLeChain(a.kind, b.kind, c.kind);
    StringLeChain(a.name, b.name, c.name);
  }

  predicate Sorted(es: seq<Entry>)
  {
    forall i, j :: 0 <= i < j < |es| ==> KeyLe(es[i].key, es[j].key)
  }

  lemma SortedCons(x: Entry, es: seq<Entry>)
    requires Sorted(es) && forall y :: y in es ==> KeyLe(x.key, y.key)
    ensures Sorted([x] + es)
  {
  }

  lemma BelowHead(e: Entry, es: seq<Entry>)
    requires Sorted(es) && es != [] && KeyLe(e.key, es[0].key)
    ensures forall y :: y in es ==> KeyLe(e.key, y.key)
  {
    forall y | y in es ensures KeyLe(e.key, y.key) {
      var j :| 0 <= j < |es| && es[j] == y;
      if j > 0 {
        KeyLeTransitive(e.key, es[0].key, es[j].key);
      }
    }
  }

  function Insert(e: Entry, es: seq<Entry>): (r: seq<Entry>)
    ensures multiset(r) == multiset(es) + multiset{e}
  {
    if es == [] then [e]
    else if KeyLe(e.key, es[0].key) then [e] + es
    else
      assert es == [es[0]] + es[1..];
      [es[0]] + Insert(e, es[1..])
  }

  lemma {:induction false} InsertSorted(e: Entry, es: seq<Entry>)
    requires Sorted(es)
    ensures Sorted(Insert(e, es))
  {
    if es != [] {
      if KeyLe(e.key, es[0].key) {
        BelowHead(e, es);
        SortedCons(e, es);
      } else {
        KeyLeTotal(e.key, es[0].key);
        var rest := Insert(e, es[1..]);
        InsertSorted(e, es[1..]);
        forall y | y in rest ensures KeyLe(es[0].key, y.key) {
          assert y in multiset(rest);
          assert y == e || y in es[1..];
        }
        SortedCons(es[0], rest);
      }
    }
  }

  /** list.sort with the tuple as its key: sorted, stable, a permutation. */
  function Sort(es: seq<Entry>): (r: seq<Entry>)
    ensures Sorted(r) && multiset(r) == multiset(es) && |r| == |es|
  {
    if es == [] then []
    else
      assert es == [es[0]] + es[1..];
      InsertSorted(es[0], Sort(es[1..]));
      var r := Insert(es[0], Sort(es[1..]));
      assert |multiset(r)| == |multiset(es)|;
      r
  }

  function Keys(es: seq<Entry>): (ks: seq<Key>)
  {
    seq(|es|, i requires 0 <= i < |es| => es[i].key)
  }

  /** Reordering keeps membership and distinctness of keys. */
  lemma PermutedKeys(a: seq<Entry>, b: seq<Entry>)
    requires multiset(a) == multiset(b)
    ensures forall k :: k in Keys(a) <==> k in Keys(b)
    ensures NoDup(Keys(a)) <==> NoDup(Keys(b))
  {
    PermutedKeysOneWay(a, b);
    PermutedKeysOneWay(b, a);
  }

  lemma PermutedKeysOneWay(a: seq<Entry>, b: seq<Entry>)
    requires multiset(a) == multiset(b)
    ensures forall k :: k in Keys(a) ==> k in Keys(b)
    ensures NoDup(Keys(a)) ==> NoDup(Keys(b))
  {
    forall i | 0 <= i < |a| ensures a[i].key in Keys(b) {
      assert a[i] in multiset(b);
      var j :| 0 <= j < |b| && b[j] == a[i];
      assert Keys(b)[j] == a[i].key;
    }
    if NoDup(Keys(a)) {
      forall i, j | 0 <= i < j < |b| ensures Keys(b)[i] != Keys(b)[j] {
        if b[i].key == b[j].key {
          assert b[i] in multiset(a) && b[j] in multiset(a);
          var m :| 0 <= m < |a| && a[m] == b[i];
          var n :| 0 <= n < |a| && a[n] == b[j];
          assert Keys(a)[m] == Keys(a)[n];
          assert m == n;
          Twice(b, i, j);
          Unique(a, m);
          assert false;
        }
      }
    }
  }

  lemma Twice(s: seq<Entry>, i: nat, j: nat)
    requires i < j < |s| && s[i] == s[j]
    ensures multiset(s)[s[i]] >= 2
  {
    assert s == s[..i] + [s[i]] + s[i + 1..j] + [s[j]] + s[j + 1..];
  }

  lemma Unique(s: seq<Entry>, i: nat)
    requires i < |s| && NoDup(Keys(s))
    ensures multiset(s)[s[i]] == 1
  {
    assert s == s[..i] + [s[i]] + s[i + 1..];
    assert forall j :: 0 <= j < |s| ==> Keys(s)[j] == s[j].key;
    assert s[i] !in s[..i] && s[i] !in s[i + 1..];
  }

  lemma SameHead(a: seq<Entry>, b: seq<Entry>)
    requires Sorted(a) && Sorted(b) && multiset(a) == multiset(b) && NoDup(Keys(a)) && a != [] && b != []
    ensures a[0] == b[0]
  {
    assert a[0] in multiset(b) && b[0] in multiset(a);
    var m :| 0 <= m < |a| && a[m] == b[0];
    var n :| 0 <= n < |b| && b[n] == a[0];
    assert m > 0 ==> KeyLe(a[0].key, a[m].key);
    assert n > 0 ==> KeyLe(b[0].key, b[n].key);
    assert m > 0 ==> Keys(a)[0] != Keys(a)[m];
    KeyLeTotal(a[0].key, b[0].key);
  }

  lemma TailOfSorted(a: seq<Entry>)
    requires a != [] && Sorted(a) && NoDup(Keys(a))
    ensures Sorted(a[1..]) && NoDup(Keys(a[1..]))
  {
    assert forall i :: 0 <= i < |a| - 1 ==> Keys(a[1..])[i] == Keys(a)[i + 1];
  }

  lemma TailCounts(a: seq<Entry>)
    requires a != []
    ensures multiset(a[1..]) == multiset(a) - multiset{a[0]}
  {
    assert a == [a[0]] + a[1..];
  }

  /** There is only one sorted arrangement of entries with distinct keys. */
  lemma {:induction false} SortedUnique(a: seq<Entry>, b: seq<Entry>)
    requires Sorted(a) && Sorted(b) && multiset(a) == multiset(b) && NoDup(Keys(a)) && NoDup(Keys(b))
    ensures a == b
    decreases |a|
  {
    assert |a| == |multiset(a)| == |multiset(b)| == |b|;
    if a != [] {
      SameHead(a, b);
      TailOfSorted(a);
      TailOfSorted(b);
      TailCounts(a);
      TailCounts(b);
      SortedUnique(a[1..], b[1..]);
      assert a == [a[0]] + a[1..] && b == [b[0]] + b[1..];
    }
  }

  /** Sorting forgets the request order. */
  lemma SortForgetsOrder(a: seq<Entry>, b: seq<Entry>)
    requires multiset(a) == multiset(b) && NoDup(Keys(a))
    ensures Sort(a) == Sort(b)
  {
    PermutedKeys(a, Sort(a));
    PermutedKeys(a, Sort(b));
    SortedUnique(Sort(a), Sort(b));
  }
}
