/**
 * String helpers the featurizer relies on: Python's `sep.join(tokens)`,
 * `text.split(c)`, and a fixed enumeration order for a set of names.
 */
module Strings {

  /** `sep.join(ts)` */
  function Join(ts: seq<string>, sep: string): string
  {
    if |ts| == 0 then ""
    else if |ts| == 1 then ts[0]
    else ts[0] + sep + Join(ts[1..], sep)
  }

  /** `s.split(c)`: the pieces between occurrences of `c`; never empty. */
  function Split(s: string, c: char): (pieces: seq<string>)
    ensures |pieces| >= 1
  {
    if |s| == 0 then [""]
    else
      var rest := Split(s[1..], c);
      if s[0] == c then [""] + rest
      else [[s[0]] + rest[0]] + rest[1..]
  }

  /** Joining two non-empty lists is joining their joins. */
  lemma {:induction false} JoinAppend(a: seq<string>, b: seq<string>, sep: string)
    requires |a| >= 1 && |b| >= 1
    ensures Join(a + b, sep) == Join(a, sep) + sep + Join(b, sep)
  {
    if |a| == 1 {
      assert a + b == [a[0]] + b;
      assert (a + b)[1..] == b;
    } else {
      assert (a + b)[1..] == a[1..] + b;
      JoinAppend(a[1..], b, sep);
    }
  }

  /** A piece that does not contain the separator comes back whole. */
  lemma {:induction false} SplitPiece(t: string, rest: string, c: char)
    requires c !in t
    ensures Split(t + [c] + rest, c) == [t] + Split(rest, c)
    ensures Split(t, c) == [t]
  {
    if |t| == 0 {
      assert t + [c] + rest == [c] + rest;
      assert ([c] + rest)[1..] == rest;
    } else {
      assert (t + [c] + rest)[1..] == t[1..] + [c] + rest;
      SplitPiece(t[1..], rest, c);
      assert [t[0]] + t[1..] == t;
    }
  }

  /** Splitting undoes joining when no piece holds the separator. */
  lemma {:induction false} SplitJoin(ts: seq<string>, c: char)
    requires |ts| >= 1
    requires forall i :: 0 <= i < |ts| ==> c !in ts[i]
    ensures Split(Join(ts, [c]), c) == ts
  {
    if |ts| == 1 {
      SplitPiece(ts[0], "", c);
    } else {
      SplitJoin(ts[1..], c);
      SplitPiece(ts[0], Join(ts[1..], [c]), c);
      assert [ts[0]] + ts[1..] == ts;
    }
  }

  /** Lexicographic order on code points (the order the model enumerates names in). */
  predicate LessEq(a: string, b: string)
  {
    |a| == 0 || (|b| != 0 && (a[0] < b[0] || (a[0] == b[0] && LessEq(a[1..], b[1..]))))
  }

  lemma {:induction false} LessEqReflexive(a: string)
    ensures LessEq(a, a)
  {
    if |a| != 0 {
      LessEqReflexive(a[1..]);
    }
  }

  lemma {:induction false} LessEqTotal(a: string, b: string)
    ensures LessEq(a, b) || LessEq(b, a)
  {
    if |a| != 0 && |b| != 0 && a[0] == b[0] {
      LessEqTotal(a[1..], b[1..]);
    }
  }

  lemma {:induction false} LessEqAntisymmetric(a: string, b: string)
    requires LessEq(a, b) && LessEq(b, a)
    ensures a == b
  {
    if |a| != 0 && |b| != 0 {
      LessEqAntisymmetric(a[1..], b[1..]);
      assert a == [a[0]] + a[1..] && b == [b[0]] + b[1..];
    }
  }

  lemma {:induction false} LessEqTransitive(a: string, b: string, c: string)
    requires LessEq(a, b) && LessEq(b, c)
    ensures LessEq(a, c)
  {
    if |a| != 0 && |b| != 0 && |c| != 0 && a[0] == b[0] && b[0] == c[0] {
      LessEqTransitive(a[1..], b[1..], c[1..]);
    }
  }

  /** A new element below the least of the others is the least of all. */
  lemma BelowLeast(s: set<string>, y: string, m: string)
    requires y in s && LessEq(y, m)
    requires forall x :: x in s - {y} ==> LessEq(m, x)
    ensures forall x :: x in s ==> LessEq(y, x)
  {
    forall x | x in s ensures LessEq(y, x) {
      if x == y {
        LessEqReflexive(y);
      } else {
        assert x in s - {y};
        LessEqTransitive(y, m, x);
      }
    }
  }

  /** The least of the others stays least when the new element is above it. */
  lemma AboveLeast(s: set<string>, y: string, m: string)
    requires y in s && LessEq(m, y)
    requires forall x :: x in s - {y} ==> LessEq(m, x)
    ensures forall x :: x in s ==> LessEq(m, x)
  {
    forall x | x in s ensures LessEq(m, x) {
      if x != y {
        assert x in s - {y};
      }
    }
  }

  /** Every finite non-empty set of strings has a least element. */
  lemma {:induction false} LeastExists(s: set<string>)
    requires s != {}
    ensures exists m :: m in s && forall x :: x in s ==> LessEq(m, x)
    decreases |s|
  {
    var y :| y in s;
    var rest := s - {y};
    if rest == {} {
      LessEqReflexive(y);
      forall x | x in s ensures LessEq(y, x) {
        assert x !in rest;
      }
      assert y in s && forall x :: x in s ==> LessEq(y, x);
    } else {
      assert |rest| < |s|;
      LeastExists(rest);
      var m :| m in rest && forall x :: x in rest ==> LessEq(m, x);
      LessEqTotal(y, m);
      if LessEq(y, m) {
        BelowLeast(s, y, m);
        assert y in s && forall x :: x in s ==> LessEq(y, x);
      } else {
        AboveLeast(s, y, m);
        assert m in s && forall x :: x in s ==> LessEq(m, x);
      }
    }
  }

  /** The least element of a non-empty set of strings. */
  function Least(s: set<string>): (m: string)
    requires s != {}
    ensures m in s && forall x :: x in s ==> LessEq(m, x)
  {
    LeastExists(s);
    assert forall a, b :: a in s && b in s && LessEq(a, b) && LessEq(b, a) ==> a == b by {
      forall a, b | a in s && b in s && LessEq(a, b) && LessEq(b, a) ensures a == b {
        LessEqAntisymmetric(a, b);
      }
    }
    var m :| m in s && forall x :: x in s ==> LessEq(m, x);
    m
  }

  /**
   * The elements of a set listed once each, in ascending order: the model's
   * choice for the iteration order of a Python `set`, which is unspecified.
   */
  function SortedElements(s: set<string>): (r: seq<string>)
    ensures |r| == |s|
    ensures forall x :: x in r <==> x in s
    ensures forall i, j :: 0 <= i < j < |r| ==> r[i] != r[j] && LessEq(r[i], r[j])
    decreases |s|
  {
    if s == {} then []
    else
      var m := Least(s);
      [m] + SortedElements(s - {m})
  }
}
