// The order of strings, character by character.
module Text {
  import opened Sequences

  predicate Less(a: string, b: string) {
    b != [] && (a == [] || a[0] < b[0] || (a[0] == b[0] && Less(a[1..], b[1..])))
  }

  // a comes first where the two first differ by a smaller character of a, or by the end of a.
  lemma {:induction false} LessIsFirstDifference(a: string, b: string)
    ensures Less(a, b) <==> exists k :: DiffersFirst(a, b, k) && k < |b| && (k == |a| || a[k] < b[k])
  {
    if a != [] && b != [] && a[0] == b[0] {
      LessIsFirstDifference(a[1..], b[1..]);
      assert a == [a[0]] + a[1..] && b == [b[0]] + b[1..];
      if Less(a, b) {
        var k :| DiffersFirst(a[1..], b[1..], k) && k < |b[1..]| && (k == |a[1..]| || a[1..][k] < b[1..][k]);
        assert DiffersFirst(a, b, k + 1);
      }
      if exists k :: DiffersFirst(a, b, k) && k < |b| && (k == |a| || a[k] < b[k]) {
        var k :| DiffersFirst(a, b, k) && k < |b| && (k == |a| || a[k] < b[k]);
        assert DiffersFirst(a[1..], b[1..], k - 1);
      }
    } else {
      assert DiffersFirst(a, b, 0);
      assert forall k | DiffersFirst(a, b, k) :: k == 0;
    }
  }

  ghost predicate DiffersFirst(a: string, b: string, k: int) {
    && 0 <= k <= |a| && k <= |b| && (forall i | 0 <= i < k :: a[i] == b[i])
    && (k < |a| && k < |b| ==> a[k] != b[k])
  }

  lemma LessIsStrict(a: string)
    ensures !Less(a, a)
  {
  }

  lemma LessIsTotal(a: string, b: string)
    ensures Less(a, b) || a == b || Less(b, a)
  {
    if a != [] && b != [] && a[0] == b[0] {
      LessIsTotal(a[1..], b[1..]);
      assert a == [a[0]] + a[1..] && b == [b[0]] + b[1..];
    }
  }

  lemma LessIsTransitive(a: string, b: string, c: string)
    requires Less(a, b) && Less(b, c)
    ensures Less(a, c)
  {
    if a != [] && a[0] == b[0] == c[0] {
      LessIsTransitive(a[1..], b[1..], c[1..]);
    }
  }

  ghost predicate Increasing(s: seq<string>) {
    forall i, j | 0 <= i < j < |s| :: Less(s[i], s[j])
  }

  // A set of strings has one increasing enumeration.
  lemma {:induction false} IncreasingIsUnique(s: seq<string>, u: seq<string>)
    requires Increasing(s) && Increasing(u)
    requires forall x :: x in s <==> x in u
    ensures s == u
  {
    if s == [] {
      if u != [] {
        HasMember(u);
      }
    } else {
      assert s[0] in u && u != [];
      assert u[0] in s;
      var i, j :| 0 <= i < |u| && u[i] == s[0] && 0 <= j < |s| && s[j] == u[0];
      if i != 0 && j != 0 {
        LessIsTransitive(s[0], s[j], s[0]);
        LessIsStrict(s[0]);
      } else if i != 0 || j != 0 {
        LessIsStrict(s[0]);
      }
      assert s[0] == u[0];
      forall x
        ensures x in s[1..] <==> x in u[1..]
      {
        LessIsStrict(s[0]);
        assert x in s[1..] ==> x in s && x != s[0];
        assert x in u[1..] ==> x in u && x != u[0];
      }
      IncreasingIsUnique(s[1..], u[1..]);
      assert s == [s[0]] + s[1..] && u == [u[0]] + u[1..];
    }
  }
}
