/** The order of strings that `BTreeSet<String>` and `sort_by` use, and ordered
    insertion. */
module Orders {
  /** Lexicographic order by character. */
  predicate Less(a: string, b: string)
  {
    if b == "" then false
    else if a == "" then true
    else a[0] < b[0] || (a[0] == b[0] && Less(a[1..], b[1..]))
  }

  lemma {:induction false} LessTransitive(a: string, b: string, c: string)
    requires Less(a, b) && Less(b, c)
    ensures Less(a, c)
    decreases |a|
  {
    if a != "" && a[0] == b[0] && b[0] == c[0] {
      LessTransitive(a[1..], b[1..], c[1..]);
    }
  }

  lemma {:induction false} LessIrreflexive(a: string)
    ensures !Less(a, a)
    decreases |a|
  {
    if a != "" {
      LessIrreflexive(a[1..]);
    }
  }

  lemma {:induction false} LessTotal(a: string, b: string)
    ensures Less(a, b) || a == b || Less(b, a)
    decreases |a|
  {
    if a != "" && b != "" && a[0] == b[0] {
      LessTotal(a[1..], b[1..]);
      assert a == [a[0]] + a[1..] && b == [b[0]] + b[1..];
    }
  }

  /** Strictly ascending: sorted, each string once. */
  predicate Sorted(s: seq<string>)
  {
    forall i, j :: 0 <= i < j < |s| ==> Less(s[i], s[j])
  }

  /** `BTreeSet::insert`. */
  method Insert(s: seq<string>, x: string) returns (r: seq<string>)
    requires Sorted(s)
    ensures Sorted(r) && (forall y :: y in r <==> y in s || y == x)
  {
    var i := 0;
    while i < |s| && Less(s[i], x)
      invariant 0 <= i <= |s| && forall j :: 0 <= j < i ==> Less(s[j], x)
    {
      i := i + 1;
    }
    if i < |s| && s[i] == x {
      return s;
    }
    r := s[..i] + [x] + s[i..];
    Spliced(s, i, x);
  }

  lemma Spliced(s: seq<string>, i: nat, x: string)
    requires Sorted(s) && i <= |s| && (forall j :: 0 <= j < i ==> Less(s[j], x))
    requires i < |s| ==> !Less(s[i], x) && s[i] != x
    ensures var r := s[..i] + [x] + s[i..]; Sorted(r) && forall y :: y in r <==> y in s || y == x
  {
    var r := s[..i] + [x] + s[i..];
    if i < |s| {
      LessTotal(s[i], x);
    }
    forall j | i <= j < |s| ensures Less(x, s[j]) {
      if i < j {
        LessTransitive(x, s[i], s[j]);
      }
    }
    forall y ensures y in r <==> y in s || y == x {
      assert s == s[..i] + s[i..];
    }
  }
}
