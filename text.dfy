/** Python's `str.split(sep)` and `sep.join(parts)` for a one-character
    separator, with the round trips between them. */
module Text {

  /** `s.split(d)`: the pieces between consecutive occurrences of `d`.
      There is always at least one piece (`"".split(d) == [""]`); no piece
      contains the separator (`SplitClean`). */
  function Split(s: string, d: char): (parts: seq<string>)
    ensures |parts| >= 1
    decreases |s|
  {
    if s == [] then [""]
    else
      var rest := Split(s[1..], d);
      if s[0] == d then [""] + rest
      else [[s[0]] + rest[0]] + rest[1..]
  }

  /** `d.join(parts)`: the pieces with one separator between neighbours. */
  function Join(parts: seq<string>, d: char): string
  {
    if |parts| == 0 then ""
    else if |parts| == 1 then parts[0]
    else parts[0] + [d] + Join(parts[1..], d)
  }

  /** No separator in any piece. */
  predicate Clean(parts: seq<string>, d: char)
  {
    forall i :: 0 <= i < |parts| ==> d !in parts[i]
  }

  /** No piece of a split contains the separator. */
  lemma {:induction false} SplitClean(s: string, d: char)
    ensures Clean(Split(s, d), d)
    decreases |s|
  {
    if s != [] {
      SplitClean(s[1..], d);
      SplitCons(s[0], s[1..], d);
      assert [s[0]] + s[1..] == s;
    }
  }

  /** Splitting a string that starts with `c`. */
  lemma SplitCons(c: char, t: string, d: char)
    ensures Split([c] + t, d)
         == if c == d then [""] + Split(t, d) else [[c] + Split(t, d)[0]] + Split(t, d)[1..]
  {
    var s := [c] + t;
    assert s[0] == c && s[1..] == t;
  }

  /** Splitting at one separator splits the two sides independently. */
  lemma {:induction false} SplitAt(a: string, b: string, d: char)
    ensures Split(a + [d] + b, d) == Split(a, d) + Split(b, d)
    decreases |a|
  {
    if a == [] {
      assert a + [d] + b == [d] + b;
      SplitCons(d, b, d);
    } else {
      SplitAt(a[1..], b, d);
      SplitAtStep(a[0], a[1..], b, d);
      assert [a[0]] + a[1..] == a;
      assert [a[0]] + (a[1..] + [d] + b) == a + [d] + b;
    }
  }

  /** The inductive step of `SplitAt`: one more character in front. */
  lemma SplitAtStep(c: char, a: string, b: string, d: char)
    requires Split(a + [d] + b, d) == Split(a, d) + Split(b, d)
    ensures Split([c] + (a + [d] + b), d) == Split([c] + a, d) + Split(b, d)
  {
    SplitCons(c, a + [d] + b, d);
    SplitCons(c, a, d);
    ConsAppend(c, d, Split(a, d), Split(b, d));
  }

  /** The sequence identity behind `SplitAtStep`. */
  lemma ConsAppend(c: char, d: char, ra: seq<string>, sb: seq<string>)
    requires |ra| >= 1
    ensures (if c == d then [""] + (ra + sb) else [[c] + (ra + sb)[0]] + (ra + sb)[1..])
         == (if c == d then [""] + ra else [[c] + ra[0]] + ra[1..]) + sb
  {
    if c != d {
      assert (ra + sb)[1..] == ra[1..] + sb;
    }
  }

  /** A string without the separator is one piece, and only such a string. */
  lemma {:induction false} SplitSingle(s: string, d: char)
    ensures Split(s, d) == [s] <==> d !in s
    ensures |Split(s, d)| == 1 <==> d !in s
    decreases |s|
  {
    if d in s {
      var i :| 0 <= i < |s| && s[i] == d;
      assert s == s[..i] + [d] + s[i+1..];
      SplitAt(s[..i], s[i+1..], d);
    } else if s != [] {
      SplitSingle(s[1..], d);
      assert [s[0]] + s[1..] == s;
    }
  }

  /** Joining two non-empty runs of pieces puts one separator between them. */
  lemma {:induction false} JoinAppend(a: seq<string>, b: seq<string>, d: char)
    requires |a| >= 1 && |b| >= 1
    ensures Join(a + b, d) == Join(a, d) + [d] + Join(b, d)
    decreases |a|
  {
    if |a| > 1 {
      assert (a + b)[0] == a[0];
      assert (a + b)[1..] == a[1..] + b;
      JoinAppend(a[1..], b, d);
    } else {
      assert a + b == [a[0]] + b;
      assert (a + b)[1..] == b;
    }
  }

  /** `d.join(s.split(d)) == s` for every string. */
  lemma {:induction false} JoinSplit(s: string, d: char)
    ensures Join(Split(s, d), d) == s
    decreases |s|
  {
    if d !in s {
      SplitSingle(s, d);
    } else {
      var i :| 0 <= i < |s| && s[i] == d;
      assert s == s[..i] + [d] + s[i+1..];
      SplitAt(s[..i], s[i+1..], d);
      JoinAppend(Split(s[..i], d), Split(s[i+1..], d), d);
      JoinSplit(s[..i], d);
      JoinSplit(s[i+1..], d);
    }
  }

  /** `d.join(parts).split(d) == parts` when there is at least one piece and
      no piece contains the separator. */
  lemma {:induction false} SplitJoin(parts: seq<string>, d: char)
    requires |parts| >= 1 && Clean(parts, d)
    ensures Split(Join(parts, d), d) == parts
    decreases |parts|
  {
    if |parts| == 1 {
      SplitSingle(parts[0], d);
    } else {
      SplitAt(parts[0], Join(parts[1..], d), d);
      SplitSingle(parts[0], d);
      SplitJoin(parts[1..], d);
      assert [parts[0]] + parts[1..] == parts;
    }
  }

  /** Both directions: splitting the join recovers the pieces exactly when
      there is at least one piece and none contains the separator. */
  lemma SplitJoinExactly(parts: seq<string>, d: char)
    ensures Split(Join(parts, d), d) == parts <==> |parts| >= 1 && Clean(parts, d)
  {
    if |parts| >= 1 && Clean(parts, d) {
      SplitJoin(parts, d);
    } else {
      SplitClean(Join(parts, d), d);
    }
  }

  /** Joining a prefix of the pieces gives a prefix of the whole join. */
  lemma JoinPrefix(parts: seq<string>, k: nat, d: char)
    requires 1 <= k <= |parts|
    ensures Join(parts[..k], d) <= Join(parts, d)
  {
    if k < |parts| {
      assert parts == parts[..k] + parts[k..];
      JoinAppend(parts[..k], parts[k..], d);
    } else {
      assert parts[..k] == parts;
    }
  }
}
