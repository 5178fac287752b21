/** One total order on strings, and the ascending enumeration of a finite set of them.

    The repository sorts names with the default string comparison in some places and with
    `localeCompare` in others. Every property proved here needs only that the order is total,
    so both are modelled by this one.
 */
module StringOrder {

  /** Strict lexicographic order. */
  predicate Less(a: string, b: string)
    decreases |a|
  {
    if |a| == 0 || |b| == 0 then |a| == 0 && |b| > 0
    else a[0] < b[0] || (a[0] == b[0] && Less(a[1..], b[1..]))
  }

  lemma {:induction false} LessTransitive(a: string, b: string, c: string)
    requires Less(a, b) && Less(b, c)
    ensures Less(a, c)
    decreases |a|
  {
    if |a| > 0 && a[0] == b[0] == c[0] {
      LessTransitive(a[1..], b[1..], c[1..]);
    }
  }

  lemma {:induction false} LessTotal(a: string, b: string)
    ensures a == b || Less(a, b) || Less(b, a)
    decreases |a|
  {
    if |a| > 0 && |b| > 0 && a[0] == b[0] {
      LessTotal(a[1..], b[1..]);
      assert a == [a[0]] + a[1..] && b == [b[0]] + b[1..];
    }
  }

  lemma {:induction false} LessIrreflexive(a: string)
    ensures !Less(a, a)
    decreases |a|
  {
    if |a| > 0 {
      LessIrreflexive(a[1..]);
    }
  }

  /** Strictly ascending, hence without repetition. */
  ghost predicate Ascending(s: seq<string>) {
    forall i, j :: 0 <= i < j < |s| ==> Less(s[i], s[j])
  }

  /** The elements of a sequence. */
  function Elements(s: seq<string>): set<string> {
    set x | x in s
  }

  lemma ElementsPush(s: seq<string>, x: string)
    ensures Elements(s + [x]) == Elements(s) + {x}
  {}

  lemma ElementsStep(s: seq<string>, i: nat)
    requires i < |s|
    ensures Elements(s[..i + 1]) == Elements(s[..i]) + {s[i]}
  {
    assert s[..i + 1] == s[..i] + [s[i]];
  }

  predicate IsMinimum(x: string, s: set<string>) {
    x in s && forall y :: y in s ==> x == y || Less(x, y)
  }

  lemma MinimumExists(s: set<string>)
    requires s != {}
    ensures exists x :: IsMinimum(x, s)
  {
    var a :| a in s;
    if s == {a} {
      assert IsMinimum(a, s);
    } else {
      MinimumExists(s - {a});
      var m :| IsMinimum(m, s - {a});
      LessTotal(a, m);
      if Less(a, m) {
        forall y | y in s ensures a == y || Less(a, y) {
          if y != a && y != m { LessTransitive(a, m, y); }
        }
        assert IsMinimum(a, s);
      } else {
        assert IsMinimum(m, s);
      }
    }
  }

  lemma MinimumUnique(x: string, y: string, s: set<string>)
    requires IsMinimum(x, s) && IsMinimum(y, s)
    ensures x == y
  {
    if x != y {
      LessTransitive(x, y, x);
      LessIrreflexive(x);
    }
  }

  function Minimum(s: set<string>): (m: string)
    requires s != {}
    ensures IsMinimum(m, s)
  {
    MinimumExists(s);
    assert forall x, y | IsMinimum(x, s) && IsMinimum(y, s) :: x == y by {
      forall x, y | IsMinimum(x, s) && IsMinimum(y, s) ensures x == y { MinimumUnique(x, y, s); }
    }
    var m :| m in s && IsMinimum(m, s);
    m
  }

  lemma SmallestFirst(m: string, rest: seq<string>, s: set<string>)
    requires IsMinimum(m, s) && Ascending(rest) && Elements(rest) == s - {m}
    ensures Ascending([m] + rest) && Elements([m] + rest) == s
  {
    var r := [m] + rest;
    forall i, j | 0 <= i < j < |r| ensures Less(r[i], r[j]) {
      assert r[j] == rest[j - 1] && rest[j - 1] in Elements(rest);
      if i > 0 { assert r[i] == rest[i - 1]; }
    }
    forall x ensures x in Elements(r) <==> x == m || x in Elements(rest) {
      assert x in r <==> x == m || x in rest;
    }
  }

  /** The elements of a set in ascending order: what sorting any duplicate-free listing of it gives. */
  function Sorted(s: set<string>): (r: seq<string>)
    ensures Ascending(r) && Elements(r) == s && |r| == |s|
  {
    if s == {} then []
    else
      var m := Minimum(s);
      var rest := Sorted(s - {m});
      SmallestFirst(m, rest, s);
      [m] + rest
  }

  /** Membership in the enumeration is membership in the set. */
  lemma SortedMembers(s: set<string>)
    ensures forall x :: x in Sorted(s) <==> x in s
    ensures forall i, j :: 0 <= i < j < |s| ==> Sorted(s)[i] != Sorted(s)[j]
  {
    assert Elements(Sorted(s)) == s;
    assert forall x :: x in Sorted(s) <==> x in Elements(Sorted(s));
    forall i, j | 0 <= i < j < |s| ensures Sorted(s)[i] != Sorted(s)[j] {
      LessIrreflexive(Sorted(s)[i]);
    }
  }

  /** An ascending sequence is determined by its elements: sorting is independent of input order. */
  lemma {:induction false} AscendingUnique(a: seq<string>, b: seq<string>)
    requires Ascending(a) && Ascending(b)
    requires Elements(a) == Elements(b)
    ensures a == b
    decreases |a|
  {
    assert forall x :: x in a <==> x in Elements(a);
    assert forall x :: x in b <==> x in Elements(b);
    if a == [] {
      if b != [] {
        var x := b[0];
        if x in b { assert false; }
      }
    } else {
      assert a[0] in b && b != [] && b[0] in a;
      if a[0] != b[0] {
        assert Less(a[0], b[0]) && Less(b[0], a[0]);
        LessTransitive(a[0], b[0], a[0]);
        LessIrreflexive(a[0]);
      }
      TailElements(a);
      TailElements(b);
      AscendingUnique(a[1..], b[1..]);
      assert a == [a[0]] + a[1..] && b == [b[0]] + b[1..];
    }
  }

  lemma TailElements(a: seq<string>)
    requires Ascending(a) && a != []
    ensures Elements(a[1..]) == Elements(a) - {a[0]}
  {
    LessIrreflexive(a[0]);
    forall x ensures x in Elements(a[1..]) <==> x in Elements(a) - {a[0]} {
      if x in a[1..] {
        var i :| 0 <= i < |a[1..]| && a[1..][i] == x;
        assert a[i + 1] == x && Less(a[0], a[i + 1]);
      }
      if x in a && x != a[0] {
        var i :| 0 <= i < |a| && a[i] == x;
        assert a[1..][i - 1] == x;
      }
    }
  }
}
