/** Splitting a list in two by a per-element flag while keeping the order, as the loops that
    append each element to one of two lists do. */
module Selection {

  /** The elements of `s` whose flag is `want`, in order. */
  function Select<T>(s: seq<T>, flags: seq<bool>, want: bool): (r: seq<T>)
    requires |flags| == |s|
    ensures |r| <= |s|
  {
    if s == [] then []
    else Select(s[..|s| - 1], flags[..|s| - 1], want) + (if flags[|s| - 1] == want then [s[|s| - 1]] else [])
  }

  /** One more element goes to the side its flag names. */
  lemma SelectSnoc<T>(s: seq<T>, flags: seq<bool>, want: bool, x: T, f: bool)
    requires |flags| == |s|
    ensures Select(s + [x], flags + [f], want) == Select(s, flags, want) + (if f == want then [x] else [])
  {
    assert (s + [x])[..|s|] == s;
    assert (flags + [f])[..|s|] == flags;
  }

  /** Extending a prefix by one position adds that element to the side its flag names. */
  lemma SelectPrefix<T>(s: seq<T>, flags: seq<bool>, want: bool, i: nat)
    requires |flags| == |s| && i < |s|
    ensures Select(s[..i + 1], flags[..i + 1], want)
            == Select(s[..i], flags[..i], want) + (if flags[i] == want then [s[i]] else [])
  {
    assert s[..i + 1][..i] == s[..i];
    assert flags[..i + 1][..i] == flags[..i];
  }

  /** The two sides hold together exactly the elements of `s`. */
  lemma {:induction false} SelectPartitions<T>(s: seq<T>, flags: seq<bool>)
    requires |flags| == |s|
    ensures multiset(Select(s, flags, true)) + multiset(Select(s, flags, false)) == multiset(s)
  {
    if s != [] {
      var n := |s| - 1;
      var yes, no := Select(s[..n], flags[..n], true), Select(s[..n], flags[..n], false);
      SelectPartitions(s[..n], flags[..n]);
      assert s == s[..n] + [s[n]];
      assert Select(s, flags, true) == yes + (if flags[n] then [s[n]] else []);
      assert Select(s, flags, false) == no + (if flags[n] then [] else [s[n]]);
      PartitionStep(yes, no, s[..n], s[n], flags[n]);
    }
  }

  lemma PartitionStep<T>(yes: seq<T>, no: seq<T>, s: seq<T>, x: T, f: bool)
    requires multiset(yes) + multiset(no) == multiset(s)
    ensures multiset(yes + (if f then [x] else [])) + multiset(no + (if f then [] else [x])) == multiset(s + [x])
  {
    if f {
      assert no + [] == no;
    } else {
      assert yes + [] == yes;
    }
  }

  /** The two sides together are as long as `s`. */
  lemma SelectLengths<T>(s: seq<T>, flags: seq<bool>)
    requires |flags| == |s|
    ensures |Select(s, flags, true)| + |Select(s, flags, false)| == |s|
  {
    SelectPartitions(s, flags);
    assert |multiset(Select(s, flags, true)) + multiset(Select(s, flags, false))| == |multiset(s)|;
  }

  /** When equal elements always carry equal flags, no element lands on both sides. */
  lemma SelectSidesDisjoint<T>(s: seq<T>, flags: seq<bool>)
    requires |flags| == |s|
    requires forall i, j :: 0 <= i < |s| && 0 <= j < |s| && s[i] == s[j] ==> flags[i] == flags[j]
    ensures forall x :: x in Select(s, flags, true) ==> x !in Select(s, flags, false)
  {
    SelectFlags(s, flags, true);
    SelectFlags(s, flags, false);
  }

  /** Every selected element is an element of `s`. */
  lemma SelectWithin<T>(s: seq<T>, flags: seq<bool>, want: bool)
    requires |flags| == |s|
    ensures forall i :: 0 <= i < |Select(s, flags, want)| ==> Select(s, flags, want)[i] in s
  {
    SelectFlags(s, flags, want);
  }

  /** Every selected element sits in `s` at a position whose flag is `want`. */
  lemma {:induction false} SelectFlags<T>(s: seq<T>, flags: seq<bool>, want: bool)
    requires |flags| == |s|
    ensures forall x :: x in Select(s, flags, want) ==> exists j :: 0 <= j < |s| && s[j] == x && flags[j] == want
  {
    if s != [] {
      var n := |s| - 1;
      SelectFlags(s[..n], flags[..n], want);
      forall x | x in Select(s, flags, want)
        ensures exists j :: 0 <= j < |s| && s[j] == x && flags[j] == want
      {
        if x in Select(s[..n], flags[..n], want) {
          var j :| 0 <= j < n && s[..n][j] == x && flags[..n][j] == want;
          assert s[j] == x && flags[j] == want;
        } else {
          assert s[n] == x && flags[n] == want;
        }
      }
    }
  }

  /** Every element whose flag is `want` is selected. */
  lemma {:induction false} SelectComplete<T>(s: seq<T>, flags: seq<bool>, want: bool)
    requires |flags| == |s|
    ensures forall j :: 0 <= j < |s| && flags[j] == want ==> s[j] in Select(s, flags, want)
  {
    if s != [] {
      var n := |s| - 1;
      SelectComplete(s[..n], flags[..n], want);
      forall j | 0 <= j < |s| && flags[j] == want
        ensures s[j] in Select(s, flags, want)
      {
        if j < n {
          assert s[..n][j] == s[j] && flags[..n][j] == flags[j];
        }
      }
    }
  }
}
