/** Sorting names as Python does, by their characters. */
module TextOrder {
  predicate Before(a: string, b: string) {
    b != [] && (a == [] || a[0] < b[0] || (a[0] == b[0] && Before(a[1..], b[1..])))
  }

  // The first k characters are the same, and then the one ends or has the smaller character.
  predicate DiffersAt(a: string, b: string, k: nat) {
    k <= |a| && k < |b| && a[..k] == b[..k] && (k == |a| || a[k] < b[k])
  }

  // One name is before another where they first differ.
  lemma {:induction false} BeforeIsLexicographic(a: string, b: string)
    ensures Before(a, b) <==> exists k :: DiffersAt(a, b, k)
  {
    if a != [] && b != [] && a[0] == b[0] {
      BeforeIsLexicographic(a[1..], b[1..]);
      if k: nat :| DiffersAt(a[1..], b[1..], k) {
        assert a[..k + 1] == [a[0]] + a[1..][..k] && b[..k + 1] == [b[0]] + b[1..][..k];
        assert DiffersAt(a, b, k + 1);
      }
      if k: nat :| DiffersAt(a, b, k) {
        assert k > 0 && a[1..][..k - 1] == a[..k][1..] && b[1..][..k - 1] == b[..k][1..];
        assert DiffersAt(a[1..], b[1..], k - 1);
      }
    } else {
      assert Before(a, b) ==> DiffersAt(a, b, 0);
      if k: nat :| DiffersAt(a, b, k) {
        StartDiffers(a, b, k);
      }
    }
  }

  lemma StartDiffers(a: string, b: string, k: nat)
    requires DiffersAt(a, b, k) && (a == [] || b == [] || a[0] != b[0])
    ensures DiffersAt(a, b, 0)
  {
    if k > 0 {
      SameStart(a, b, k);
    }
  }

  lemma SameStart(a: string, b: string, k: nat)
    requires k > 0 && DiffersAt(a, b, k)
    ensures a != [] && b != [] && a[0] == b[0]
  {
    assert a[..k][0] == b[..k][0];
  }

  lemma {:induction false} BeforeTotal(a: string, b: string)
    ensures a == b || Before(a, b) || Before(b, a)
    ensures !(Before(a, b) && Before(b, a)) && !Before(a, a)
  {
    if a != [] && b != [] {
      BeforeTotal(a[1..], b[1..]);
      assert a == [a[0]] + a[1..] && b == [b[0]] + b[1..];
    }
    if a != [] {
      BeforeTotal(a[1..], a[1..]);
    }
  }

  lemma {:induction false} BeforeTransitive(a: string, b: string, c: string)
    requires Before(a, b) && Before(b, c)
    ensures Before(a, c)
  {
    if a != [] && a[0] == b[0] && b[0] == c[0] {
      BeforeTransitive(a[1..], b[1..], c[1..]);
    }
  }

  predicate IsFirst(name: string, names: set<string>) {
    name in names && forall n :: n in names && n != name ==> Before(name, n)
  }

  lemma {:induction false} FirstExists(names: set<string>)
    requires names != {}
    ensures exists n :: IsFirst(n, names)
  {
    var x :| x in names;
    if names == {x} {
      assert IsFirst(x, names);
    } else {
      FirstExists(names - {x});
      var y :| IsFirst(y, names - {x});
      BeforeTotal(x, y);
      var first := if Before(x, y) then x else y;
      forall n | n in names && n != first ensures Before(first, n) {
        if n != x && n != y && first == x {
          BeforeTransitive(x, y, n);
        }
      }
      assert IsFirst(first, names);
    }
  }

  lemma FirstUnique(a: string, b: string, names: set<string>)
    requires IsFirst(a, names) && IsFirst(b, names)
    ensures a == b
  {
    BeforeTotal(a, b);
  }

  // `sorted(names)`, for names that are all different.
  ghost function Sorted(names: set<string>): (sorted: seq<string>)
    ensures forall n :: n in sorted <==> n in names
  {
    if names == {} then []
    else
      FirstExists(names);
      var first :| IsFirst(first, names);
      [first] + Sorted(names - {first})
  }

  method SortNames(names: set<string>) returns (sorted: seq<string>)
    ensures sorted == Sorted(names)
  {
    sorted := [];
    var rest := names;
    while rest != {}
      invariant rest <= names
      invariant sorted + Sorted(rest) == Sorted(names)
      decreases |rest|
    {
      FirstExists(rest);
      var first :| IsFirst(first, rest);
      forall other | IsFirst(other, rest) ensures other == first {
        FirstUnique(other, first, rest);
      }
      assert Sorted(rest) == [first] + Sorted(rest - {first});
      sorted, rest := sorted + [first], rest - {first};
    }
  }

  // Every name once, each before the next.
  lemma {:induction false} SortedInOrder(names: set<string>)
    ensures forall i, j :: 0 <= i < j < |Sorted(names)| ==> Before(Sorted(names)[i], Sorted(names)[j])
    ensures |Sorted(names)| == |names|
  {
    if names != {} {
      var sorted := Sorted(names);
      var first := sorted[0];
      assert IsFirst(first, names) && sorted[1..] == Sorted(names - {first});
      SortedInOrder(names - {first});
      forall j | 0 < j < |sorted| ensures Before(first, sorted[j]) {
        assert sorted[1..][j - 1] in names - {first};
      }
    }
  }
}
