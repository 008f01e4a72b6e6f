/** Texts in the order of their characters, and lists of texts in that order. */
module TextOrder {
  import opened Options

  // Strict.
  predicate Less(a: string, b: string) {
    b != "" && (a == "" || a[0] < b[0] || (a[0] == b[0] && Less(a[1..], b[1..])))
  }

  lemma {:induction false} LessTransitive(a: string, b: string, c: string)
    requires Less(a, b) && Less(b, c)
    ensures Less(a, c)
  {
    if a != "" && a[0] == b[0] && b[0] == c[0] {
      LessTransitive(a[1..], b[1..], c[1..]);
    }
  }

  lemma {:induction false} LessTrichotomy(a: string, b: string)
    ensures (Less(a, b) && !Less(b, a) && a != b) || (Less(b, a) && !Less(a, b) && a != b) || (a == b && !Less(a, b))
  {
    if a != "" && b != "" && a[0] == b[0] {
      LessTrichotomy(a[1..], b[1..]);
      assert a == [a[0]] + a[1..] && b == [b[0]] + b[1..];
    }
  }

  predicate Increasing(s: seq<string>) {
    |s| <= 1 || (Less(s[0], s[1]) && Increasing(s[1..]))
  }

  lemma {:induction false} FirstIsLeast(s: seq<string>, x: string)
    requires Increasing(s) && x in s
    ensures x == s[0] || Less(s[0], x)
  {
    if x != s[0] {
      FirstIsLeast(s[1..], x);
      if x != s[1] {
        LessTransitive(s[0], s[1], x);
      }
    }
  }

  lemma {:induction false} IncreasingDistinct(s: seq<string>)
    requires Increasing(s)
    ensures Distinct(s)
  {
    if s == [] {
    } else {
      IncreasingDistinct(s[1..]);
      forall i, j | 0 <= i < j < |s|
        ensures s[i] != s[j]
      {
        assert s[j] == s[1..][j - 1];
        if i == 0 {
          FirstIsLeast(s[1..], s[j]);
          LessTrichotomy(s[0], s[j]);
          if s[1] != s[j] {
            LessTransitive(s[0], s[1], s[j]);
          }
        } else {
          assert s[i] == s[1..][i - 1];
        }
      }
    }
  }

  /** An ordered list without repetition is fixed by what is in it. */
  lemma {:induction false} OrderIsCanonical(a: seq<string>, b: seq<string>)
    requires Increasing(a) && Increasing(b)
    requires forall x :: x in a <==> x in b
    ensures a == b
  {
    assert b != [] ==> b[0] in b;
    assert a != [] ==> a[0] in a;
    if a == [] {
    } else {
      FirstIsLeast(a, b[0]);
      FirstIsLeast(b, a[0]);
      LessTrichotomy(a[0], b[0]);
      IncreasingDistinct(a);
      IncreasingDistinct(b);
      forall x
        ensures x in a[1..] <==> x in b[1..]
      {
        assert x in a[1..] ==> x != a[0] && x in a;
        assert x in b[1..] ==> x != b[0] && x in b;
        assert x in a && x != a[0] ==> x in a[1..];
        assert x in b && x != b[0] ==> x in b[1..];
      }
      OrderIsCanonical(a[1..], b[1..]);
      assert a == [a[0]] + a[1..] && b == [b[0]] + b[1..];
    }
  }
}
