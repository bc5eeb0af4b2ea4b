// The canonical manifest of a release: artifact entries in the order of their names.
module Manifests {
  import opened Basics

  datatype Entry = Entry(name: string, kind: string, architecture: string, osFamily: string, sha: string, size: nat)

  datatype Manifest = Manifest(
    version: string, channel: string, keyId: Option<string>, minimum: Option<string>,
    osSupport: seq<string>, architecture: seq<string>, notes: Option<string>, artifacts: seq<Entry>)

  // -- code-point order of strings --------------------------------------------------------------

  predicate Leq(a: string, b: string) {
    a == "" || (b != "" && (a[0] < b[0] || (a[0] == b[0] && Leq(a[1..], b[1..]))))
  }

  // a and b differ first at k, where a has the lower character.
  ghost predicate LowerAt(a: string, b: string, k: int) {
    0 <= k < |a| && k < |b| && a[..k] == b[..k] && a[k] < b[k]
  }

  // As the program compares strings: a prefix comes first, and else the first difference decides.
  lemma {:induction false} LeqMeans(a: string, b: string)
    ensures Leq(a, b) <==> a <= b || exists k :: LowerAt(a, b, k)
  {
    if a != "" && b != "" {
      var x, y := a[1..], b[1..];
      LeqMeans(x, y);
      assert a == [a[0]] + x && b == [b[0]] + y;
      if k :| LowerAt(x, y, k) && a[0] == b[0] {
        assert a[..k + 1] == [a[0]] + x[..k] && b[..k + 1] == [b[0]] + y[..k];
        assert LowerAt(a, b, k + 1);
      }
      if a[0] < b[0] {
        assert LowerAt(a, b, 0);
      }
      if k :| LowerAt(a, b, k) && k > 0 {
        assert a[..k][0] == a[0] && b[..k][0] == b[0];
        assert x[..k - 1] == a[..k][1..] && y[..k - 1] == b[..k][1..];
        assert LowerAt(x, y, k - 1);
      }
    } else if a != "" {
      assert !(exists k :: LowerAt(a, b, k));
    }
  }

  lemma {:induction false} LeqTotal(a: string, b: string)
    ensures Leq(a, b) || Leq(b, a)
    ensures Leq(a, b) && Leq(b, a) ==> a == b
  {
    if a != "" && b != "" {
      LeqTotal(a[1..], b[1..]);
      assert a == [a[0]] + a[1..] && b == [b[0]] + b[1..];
    }
  }

  lemma {:induction false} LeqTransitive(a: string, b: string, c: string)
    requires Leq(a, b) && Leq(b, c)
    ensures Leq(a, c)
  {
    if a != "" {
      if a[0] == b[0] == c[0] {
        LeqTransitive(a[1..], b[1..], c[1..]);
      }
    }
  }

  // -- stable sorting -----------------------------------------------------------------------------

  // Inserts x after everything that does not come after it.
  function Insert<T>(s: seq<T>, x: T, key: T -> string): seq<T> {
    if s == [] || Leq(key(s[|s| - 1]), key(x)) then s + [x]
    else Insert(s[..|s| - 1], x, key) + [s[|s| - 1]]
  }

  function Sort<T>(s: seq<T>, key: T -> string): seq<T> {
    if s == [] then [] else Insert(Sort(s[..|s| - 1], key), s[|s| - 1], key)
  }

  ghost predicate Sorted<T>(s: seq<T>, key: T -> string) {
    forall i, j :: 0 <= i < j < |s| ==> Leq(key(s[i]), key(s[j]))
  }

  lemma IndexOf<T>(s: seq<T>, x: T) returns (i: nat)
    requires x in multiset(s)
    ensures i < |s| && s[i] == x
  {
    i :| 0 <= i < |s| && s[i] == x;
  }

  lemma {:induction false} InsertFacts<T>(s: seq<T>, x: T, key: T -> string)
    requires Sorted(s, key)
    ensures Sorted(Insert(s, x, key), key)
    ensures multiset(Insert(s, x, key)) == multiset(s) + multiset{x}
  {
    if s != [] {
      var rest, last := s[..|s| - 1], s[|s| - 1];
      assert s == rest + [last];
      if Leq(key(last), key(x)) {
        forall i | 0 <= i < |s| ensures Leq(key(s[i]), key(x)) {
          if i < |s| - 1 {
            LeqTransitive(key(s[i]), key(last), key(x));
          }
        }
      } else {
        LeqTotal(key(last), key(x));
        InsertFacts(rest, x, key);
        var r := Insert(rest, x, key);
        forall i | 0 <= i < |r| ensures Leq(key(r[i]), key(last)) {
          assert r[i] in multiset(r);
          if r[i] != x {
            var j := IndexOf(rest, r[i]);
            assert Leq(key(s[j]), key(s[|s| - 1]));
          }
        }
      }
    }
  }

  lemma {:induction false} SortFacts<T>(s: seq<T>, key: T -> string)
    ensures Sorted(Sort(s, key), key)
    ensures multiset(Sort(s, key)) == multiset(s)
  {
    if s != [] {
      SortFacts(s[..|s| - 1], key);
      InsertFacts(Sort(s[..|s| - 1], key), s[|s| - 1], key);
      assert s == s[..|s| - 1] + [s[|s| - 1]];
    }
  }

  // The elements with a given key, in their order.
  ghost function Under<T>(s: seq<T>, k: string, key: T -> string): seq<T> {
    if s == [] then []
    else Under(s[..|s| - 1], k, key) + (if key(s[|s| - 1]) == k then [s[|s| - 1]] else [])
  }

  lemma {:induction false} UnderConcat<T>(a: seq<T>, b: seq<T>, k: string, key: T -> string)
    ensures Under(a + b, k, key) == Under(a, k, key) + Under(b, k, key)
  {
    if b == [] {
      assert a + b == a;
    } else {
      assert (a + b)[..|a + b| - 1] == a + b[..|b| - 1];
      UnderConcat(a, b[..|b| - 1], k, key);
    }
  }

  lemma {:induction false} InsertIsStable<T>(s: seq<T>, x: T, k: string, key: T -> string)
    requires Sorted(s, key)
    ensures Under(Insert(s, x, key), k, key) == Under(s + [x], k, key)
  {
    if s != [] && !Leq(key(s[|s| - 1]), key(x)) {
      var rest, last := s[..|s| - 1], s[|s| - 1];
      assert s == rest + [last];
      InsertIsStable(rest, x, k, key);
      UnderConcat(Insert(rest, x, key), [last], k, key);
      UnderConcat(rest, [x], k, key);
      UnderConcat(rest, [last], k, key);
      UnderConcat(s, [x], k, key);
      LeqTotal(key(last), key(x));
      UnderOne(x, k, key);
      UnderOne(last, k, key);
    }
  }

  lemma UnderOne<T>(x: T, k: string, key: T -> string)
    ensures Under([x], k, key) == if key(x) == k then [x] else []
  {
    assert [x][..0] == [];
  }

  // Sorting keeps elements with the same key in their order.
  lemma {:induction false} SortIsStable<T>(s: seq<T>, k: string, key: T -> string)
    ensures Under(Sort(s, key), k, key) == Under(s, k, key)
  {
    if s != [] {
      var rest, x := s[..|s| - 1], s[|s| - 1];
      assert s == rest + [x];
      SortIsStable(rest, k, key);
      SortFacts(rest, key);
      InsertIsStable(Sort(rest, key), x, k, key);
      UnderConcat(Sort(rest, key), [x], k, key);
      UnderConcat(rest, [x], k, key);
    }
  }

  // -- when the order of the input does not matter ------------------------------------------------

  // Elements with the same key are the same element.
  ghost predicate KeyDetermines<T>(s: seq<T>, key: T -> string) {
    forall i, j :: 0 <= i < |s| && 0 <= j < |s| && key(s[i]) == key(s[j]) ==> s[i] == s[j]
  }

  lemma LastAgrees<T>(a: seq<T>, b: seq<T>, key: T -> string)
    requires Sorted(a, key) && Sorted(b, key) && multiset(a) == multiset(b) && KeyDetermines(a, key)
    requires a != [] && b != []
    ensures a[|a| - 1] == b[|b| - 1]
  {
    var x, y := a[|a| - 1], b[|b| - 1];
    assert y in multiset(b) && x in multiset(a);
    var i := IndexOf(a, y);
    var j := IndexOf(b, x);
    LeqTotal(key(x), key(y));
    if i < |a| - 1 && j < |b| - 1 {
      assert Leq(key(a[i]), key(a[|a| - 1])) && Leq(key(b[j]), key(b[|b| - 1]));
      assert key(a[i]) == key(a[|a| - 1]);
    }
  }

  lemma MultisetFront<T>(a: seq<T>)
    requires a != []
    ensures multiset(a[..|a| - 1]) == multiset(a) - multiset{a[|a| - 1]}
  {
    assert a == a[..|a| - 1] + [a[|a| - 1]];
  }

  lemma WithoutLast<T>(a: seq<T>, key: T -> string)
    requires Sorted(a, key) && a != []
    ensures Sorted(a[..|a| - 1], key)
    ensures KeyDetermines(a, key) ==> KeyDetermines(a[..|a| - 1], key)
  {
  }

  lemma {:induction false} SortedIsUnique<T>(a: seq<T>, b: seq<T>, key: T -> string)
    requires Sorted(a, key) && Sorted(b, key) && multiset(a) == multiset(b) && KeyDetermines(a, key)
    ensures a == b
  {
    assert |multiset(a)| == |a| && |multiset(b)| == |b|;
    if a != [] {
      LastAgrees(a, b, key);
      FrontsAgree(a, b, key);
      SortedIsUnique(a[..|a| - 1], b[..|b| - 1], key);
      assert a == a[..|a| - 1] + [a[|a| - 1]] && b == b[..|b| - 1] + [b[|b| - 1]];
    }
  }

  lemma FrontsAgree<T>(a: seq<T>, b: seq<T>, key: T -> string)
    requires Sorted(a, key) && Sorted(b, key) && multiset(a) == multiset(b) && KeyDetermines(a, key)
    requires a != [] && b != [] && a[|a| - 1] == b[|b| - 1]
    ensures Sorted(a[..|a| - 1], key) && Sorted(b[..|b| - 1], key)
    ensures multiset(a[..|a| - 1]) == multiset(b[..|b| - 1]) && KeyDetermines(a[..|a| - 1], key)
  {
    WithoutLast(a, key);
    WithoutLast(b, key);
    MultisetFront(a);
    MultisetFront(b);
  }

  lemma SameElements<T>(a: seq<T>, b: seq<T>, key: T -> string)
    requires multiset(a) == multiset(b) && KeyDetermines(a, key)
    ensures KeyDetermines(b, key)
  {
    forall i, j | 0 <= i < |b| && 0 <= j < |b| && key(b[i]) == key(b[j]) ensures b[i] == b[j] {
      assert b[i] in multiset(a) && b[j] in multiset(a);
      var k :| 0 <= k < |a| && a[k] == b[i];
      var l :| 0 <= l < |a| && a[l] == b[j];
    }
  }

  // a with its i-th element moved to the front.
  ghost function Fronted<T>(a: seq<T>, i: nat): seq<T>
    requires i < |a|
  {
    [a[i]] + (a[..i] + a[i + 1..])
  }

  lemma FrontedFacts<T>(a: seq<T>, i: nat, key: T -> string)
    requires i < |a|
    ensures multiset(Fronted(a, i)) == multiset(a)
    ensures var u := Under(Fronted(a, i), key(a[i]), key); |u| > 0 && u[0] == a[i]
  {
    assert a == a[..i] + [a[i]] + a[i + 1..];
    UnderConcat([a[i]], a[..i] + a[i + 1..], key(a[i]), key);
    UnderOne(a[i], key(a[i]), key);
  }

  // The sorted list is the same for every order of the input exactly when the key determines the
  // element.
  lemma SortIgnoresOrderIff<T(!new)>(a: seq<T>, key: T -> string)
    ensures KeyDetermines(a, key) <==> forall b :: multiset(b) == multiset(a) ==> Sort(b, key) == Sort(a, key)
  {
    if KeyDetermines(a, key) {
      forall b | multiset(b) == multiset(a) ensures Sort(b, key) == Sort(a, key) {
        SortFacts(a, key);
        SortFacts(b, key);
        SameElements(a, Sort(a, key), key);
        SortedIsUnique(Sort(a, key), Sort(b, key), key);
      }
    } else {
      var i, j :| 0 <= i < |a| && 0 <= j < |a| && key(a[i]) == key(a[j]) && a[i] != a[j];
      FrontedFacts(a, i, key);
      FrontedFacts(a, j, key);
      SortIsStable(Fronted(a, i), key(a[i]), key);
      SortIsStable(Fronted(a, j), key(a[i]), key);
      assert Sort(Fronted(a, i), key) != Sort(Fronted(a, j), key);
    }
  }

  // -- the manifest ---------------------------------------------------------------------------------

  function NameOf(e: Entry): string { e.name }

  function Itself(s: string): string { s }

  function CanonicalManifest(version: string, channel: string, keyId: Option<string>, entries: seq<Entry>,
                             minimum: Option<string>, notes: Option<string>, osSupport: seq<string>,
                             architecture: seq<string>): Manifest
  {
    Manifest(version, channel, keyId, minimum, Sort(osSupport, Itself), Sort(architecture, Itself), notes,
             Sort(entries, NameOf))
  }

  // The manifest does not depend on the order in which the database lists the artifact rows exactly
  // when rows with the same name are identical.
  lemma ManifestIgnoresRowOrderIff(version: string, channel: string, keyId: Option<string>, rows: seq<Entry>,
                                   minimum: Option<string>, notes: Option<string>, osSupport: seq<string>,
                                   architecture: seq<string>)
    ensures (forall i, j :: 0 <= i < |rows| && 0 <= j < |rows| && rows[i].name == rows[j].name ==> rows[i] == rows[j])
      <==> forall other :: multiset(other) == multiset(rows) ==>
        CanonicalManifest(version, channel, keyId, other, minimum, notes, osSupport, architecture)
          == CanonicalManifest(version, channel, keyId, rows, minimum, notes, osSupport, architecture)
  {
    SortIgnoresOrderIff(rows, NameOf);
    assert KeyDetermines(rows, NameOf) <==>
      forall i, j :: 0 <= i < |rows| && 0 <= j < |rows| && rows[i].name == rows[j].name ==> rows[i] == rows[j];
    if KeyDetermines(rows, NameOf) {
      forall other | multiset(other) == multiset(rows)
        ensures CanonicalManifest(version, channel, keyId, other, minimum, notes, osSupport, architecture)
             == CanonicalManifest(version, channel, keyId, rows, minimum, notes, osSupport, architecture)
      {
        assert Sort(other, NameOf) == Sort(rows, NameOf);
      }
    } else {
      var other :| multiset(other) == multiset(rows) && Sort(other, NameOf) != Sort(rows, NameOf);
      assert CanonicalManifest(version, channel, keyId, other, minimum, notes, osSupport, architecture).artifacts
          != CanonicalManifest(version, channel, keyId, rows, minimum, notes, osSupport, architecture).artifacts;
    }
  }

  // Two different rows with one name: the manifest depends on which of them comes first.
  lemma SwappedRowsDiffer(version: string, channel: string, keyId: Option<string>, x: Entry, y: Entry)
    requires x.name == y.name && x != y
    ensures multiset([x, y]) == multiset([y, x])
    ensures CanonicalManifest(version, channel, keyId, [x, y], None, None, [], [])
         != CanonicalManifest(version, channel, keyId, [y, x], None, None, [], [])
  {
    SortTwo(x, y);
    SortTwo(y, x);
  }

  lemma SortTwo(x: Entry, y: Entry)
    requires x.name == y.name
    ensures Sort([x, y], NameOf) == [x, y]
  {
    LeqTotal(x.name, y.name);
    assert [x, y][..1] == [x] && [x][..0] == [];
    assert Sort([x], NameOf) == Insert([], x, NameOf) == [x];
    assert Insert([x], y, NameOf) == [x] + [y];
  }
}
