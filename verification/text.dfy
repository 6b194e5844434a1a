/** String helpers the backup script leans on: Ruby's `Array#join`, a
    character split that inverts it, `String#gsub` of one character by
    the empty string, and prefix/suffix tests used to state results. */
module Text {

  predicate IsPrefix(p: string, s: string) {
    |p| <= |s| && s[..|p|] == p
  }

  predicate IsSuffix(p: string, s: string) {
    |p| <= |s| && s[|s| - |p|..] == p
  }

  /** `parts.join(sep)`: the parts in order with `sep` between neighbours. */
  function Join(parts: seq<string>, sep: string): string
    decreases |parts|
  {
    if |parts| == 0 then ""
    else if |parts| == 1 then parts[0]
    else Join(parts[..|parts| - 1], sep) + sep + parts[|parts| - 1]
  }

  /** Appending one part to a non-empty list appends `sep` and that part. */
  lemma JoinSnoc(parts: seq<string>, last: string, sep: string)
    requires |parts| > 0
    ensures Join(parts + [last], sep) == Join(parts, sep) + sep + last
  {
    assert (parts + [last])[..|parts|] == parts;
  }

  /** Putting one part in front of a non-empty list prepends that part and
      `sep`. */
  lemma {:induction false} JoinCons(first: string, rest: seq<string>, sep: string)
    requires |rest| > 0
    ensures Join([first] + rest, sep) == first + sep + Join(rest, sep)
    decreases |rest|
  {
    var p := [first] + rest;
    if |rest| == 1 {
      assert p[..1] == [first];
    } else {
      var init := rest[..|rest| - 1];
      assert p[..|p| - 1] == [first] + init;
      JoinCons(first, init, sep);
      var last := rest[|rest| - 1];
      assert Join(p, sep) == first + sep + Join(init, sep) + sep + last;
      assert Join(rest, sep) == Join(init, sep) + sep + last;
    }
  }

  /** The join begins with the first part (and `sep` when more follow) and
      ends with the last part (after `sep` when more precede it). */
  lemma {:induction false} JoinEnds(parts: seq<string>, sep: string)
    ensures |parts| > 0 ==> IsPrefix(parts[0], Join(parts, sep))
    ensures |parts| > 0 ==> IsSuffix(parts[|parts| - 1], Join(parts, sep))
    ensures |parts| > 1 ==> IsPrefix(parts[0] + sep, Join(parts, sep))
    ensures |parts| > 1 ==> IsSuffix(sep + parts[|parts| - 1], Join(parts, sep))
    decreases |parts|
  {
    if |parts| > 1 {
      JoinCons(parts[0], parts[1..], sep);
      assert [parts[0]] + parts[1..] == parts;
      var r := Join(parts, sep);
      assert r == parts[0] + sep + Join(parts[1..], sep);
      assert r[..|parts[0] + sep|] == parts[0] + sep;
      var init := Join(parts[..|parts| - 1], sep);
      var last := parts[|parts| - 1];
      assert r == init + (sep + last);
      assert r[|r| - |sep + last|..] == sep + last;
    }
  }

  /** With a non-empty separator the join is empty exactly when there is
      nothing to join or a single empty part. */
  lemma JoinEmptyIff(parts: seq<string>, sep: string)
    requires sep != ""
    ensures Join(parts, sep) == "" <==> parts == [] || parts == [""]
  {
    if |parts| > 1 {
      JoinEnds(parts, sep);
    }
  }

  /** With three parts or more, the join opens with the first two parts,
      each followed by `sep`. */
  lemma JoinFront(parts: seq<string>, sep: string)
    requires |parts| >= 3
    ensures IsPrefix(parts[0] + sep + parts[1] + sep, Join(parts, sep))
  {
    var rest := parts[2..];
    assert [parts[1]] + rest == parts[1..];
    assert [parts[0]] + parts[1..] == parts;
    JoinCons(parts[1], rest, sep);
    JoinCons(parts[0], parts[1..], sep);
    PrefixOfNested(parts[0], sep, parts[1], Join(rest, sep));
  }

  lemma PrefixOfNested(a: string, sep: string, b: string, rest: string)
    ensures IsPrefix(a + sep + b + sep, a + sep + (b + sep + rest))
  {
    var p := a + sep + b + sep;
    assert a + sep + (b + sep + rest) == p + rest;
    assert (p + rest)[..|p|] == p;
  }

  /** With three parts or more, the join closes with the last two parts,
      each preceded by `sep`. */
  lemma JoinBack(parts: seq<string>, sep: string)
    requires |parts| >= 3
    ensures IsSuffix(sep + parts[|parts| - 2] + sep + parts[|parts| - 1], Join(parts, sep))
  {
    var n := |parts|;
    var init := parts[..n - 1];
    assert init[..n - 2] == parts[..n - 2];
    var q := sep + parts[n - 2] + sep + parts[n - 1];
    var front := Join(parts[..n - 2], sep);
    assert Join(parts, sep) == front + q;
    assert (front + q)[|front + q| - |q|..] == q;
  }

  /** Extends a known join of the first `k` words by word `k`. */
  lemma JoinStep(w: seq<string>, k: nat, p: string)
    requires 0 < k < |w|
    requires Join(w[..k], " ") == p
    ensures Join(w[..k + 1], " ") == p + " " + w[k]
  {
    assert w[..k + 1] == w[..k] + [w[k]];
    JoinSnoc(w[..k], w[k], " ");
  }

  /** The first five words joined by spaces, spelled out. */
  lemma JoinFive(w: seq<string>)
    requires |w| >= 5
    ensures Join(w[..5], " ") == w[0] + " " + w[1] + " " + w[2] + " " + w[3] + " " + w[4]
  {
    assert w[..1] == [w[0]];
    JoinStep(w, 1, w[0]);
    JoinStep(w, 2, w[0] + " " + w[1]);
    JoinStep(w, 3, w[0] + " " + w[1] + " " + w[2]);
    JoinStep(w, 4, w[0] + " " + w[1] + " " + w[2] + " " + w[3]);
  }

  /** Eleven words joined by spaces, spelled out. */
  lemma JoinEleven(w: seq<string>)
    requires |w| == 11
    ensures Join(w, " ") == w[0] + " " + w[1] + " " + w[2] + " " + w[3] + " " + w[4] + " " + w[5]
                           + " " + w[6] + " " + w[7] + " " + w[8] + " " + w[9] + " " + w[10]
  {
    JoinFive(w);
    var p := w[0] + " " + w[1] + " " + w[2] + " " + w[3] + " " + w[4];
    JoinStep(w, 5, p);
    JoinStep(w, 6, p + " " + w[5]);
    JoinStep(w, 7, p + " " + w[5] + " " + w[6]);
    JoinStep(w, 8, p + " " + w[5] + " " + w[6] + " " + w[7]);
    JoinStep(w, 9, p + " " + w[5] + " " + w[6] + " " + w[7] + " " + w[8]);
    JoinStep(w, 10, p + " " + w[5] + " " + w[6] + " " + w[7] + " " + w[8] + " " + w[9]);
    assert w[..11] == w;
  }

  /** Two pieces appended one after the other are their concatenation
      appended at once. */
  lemma Glue(p: string, a: string, b: string, c: string)
    requires a + b == c
    ensures p + a + b == p + c
  {
  }

  /** A space then a piece made of `a`, `v` and `b` is the same text as
      `" " + a`, then `v`, then `b`. */
  lemma GlueWrapped(p: string, a: string, v: string, b: string)
    ensures p + " " + (a + v + b) == p + (" " + a) + v + b
  {
  }

  /** A space then a piece made of `a` and `v` is `" " + a`, then `v`. */
  lemma GluePrefixed(p: string, a: string, v: string)
    ensures p + " " + (a + v) == p + (" " + a) + v
  {
  }

  /** Splits `s` at every occurrence of `c`; always at least one piece. */
  function Split(s: string, c: char): (r: seq<string>)
    ensures |r| > 0
    decreases |s|
  {
    if |s| == 0 then [""]
    else
      var rest := Split(s[1..], c);
      if s[0] == c then [""] + rest
      else [[s[0]] + rest[0]] + rest[1..]
  }

  /** A string without `c`, followed by `c` and more text, splits into
      that string and the pieces of the rest. */
  lemma {:induction false} SplitAfterPiece(x: string, c: char, tail: string)
    requires c !in x
    ensures Split(x + [c] + tail, c) == [x] + Split(tail, c)
    decreases |x|
  {
    if |x| == 0 {
      assert x + [c] + tail == [c] + tail;
      assert ([c] + tail)[1..] == tail;
    } else {
      assert (x + [c] + tail)[1..] == x[1..] + [c] + tail;
      SplitAfterPiece(x[1..], c, tail);
      assert [x[0]] + x[1..] == x;
    }
  }

  /** A string without `c` is a single piece. */
  lemma {:induction false} SplitWhole(x: string, c: char)
    requires c !in x
    ensures Split(x, c) == [x]
    decreases |x|
  {
    if |x| > 0 {
      SplitWhole(x[1..], c);
      assert [x[0]] + x[1..] == x;
    }
  }

  /** `Split` undoes `Join` when no part contains the separator character. */
  lemma {:induction false} SplitJoin(parts: seq<string>, c: char)
    requires |parts| > 0
    requires forall i :: 0 <= i < |parts| ==> c !in parts[i]
    ensures Split(Join(parts, [c]), c) == parts
    decreases |parts|
  {
    if |parts| == 1 {
      SplitWhole(parts[0], c);
    } else {
      SplitJoin(parts[1..], c);
      JoinCons(parts[0], parts[1..], [c]);
      SplitAfterPiece(parts[0], c, Join(parts[1..], [c]));
      assert [parts[0]] + parts[1..] == parts;
    }
  }

  /** `s.gsub(c, "")`: `s` with every occurrence of `c` removed and every
      other character kept, in order. */
  function StripChar(s: string, c: char): (r: string)
    ensures c !in r
    ensures |r| <= |s|
    ensures forall x :: x != c ==> multiset(r)[x] == multiset(s)[x]
    decreases |s|
  {
    if |s| == 0 then ""
    else
      var rest := StripChar(s[1..], c);
      assert s == [s[0]] + s[1..];
      if s[0] == c then rest else [s[0]] + rest
  }

  /** A string that does not contain `c` passes through unchanged. */
  lemma {:induction false} StripCharAbsent(s: string, c: char)
    requires c !in s
    ensures StripChar(s, c) == s
    decreases |s|
  {
    if |s| > 0 {
      StripCharAbsent(s[1..], c);
      assert [s[0]] + s[1..] == s;
    }
  }

  /** A single character is dropped when it is `c` and kept otherwise. */
  lemma StripCharOne(x: char, c: char)
    ensures StripChar([x], c) == (if x == c then "" else [x])
  {
    assert [x][1..] == "";
  }

  /** Stripping works piece by piece and keeps the pieces in order; with
      `StripCharOne` this fixes the result for every string, so the kept
      characters stay in their original order. */
  lemma {:induction false} StripCharAppend(a: string, b: string, c: char)
    ensures StripChar(a + b, c) == StripChar(a, c) + StripChar(b, c)
    decreases |a|
  {
    if |a| > 0 {
      assert (a + b)[0] == a[0];
      assert (a + b)[1..] == a[1..] + b;
      StripCharAppend(a[1..], b, c);
    } else {
      assert a + b == b;
    }
  }

  /** Stripping leaves nothing exactly when every character is `c`. */
  lemma {:induction false} StripCharEmpty(s: string, c: char)
    ensures StripChar(s, c) == "" <==> forall i :: 0 <= i < |s| ==> s[i] == c
    decreases |s|
  {
    if |s| > 0 {
      StripCharEmpty(s[1..], c);
      if forall i :: 0 <= i < |s| ==> s[i] == c {
        assert forall i :: 0 <= i < |s[1..]| ==> s[1..][i] == s[i + 1];
      } else if s[0] == c {
        var k :| 0 <= k < |s| && s[k] != c;
        assert s[1..][k - 1] != c;
      }
    }
  }

  /** Stripping twice is stripping once. */
  lemma StripCharIdempotent(s: string, c: char)
    ensures StripChar(StripChar(s, c), c) == StripChar(s, c)
  {
    StripCharAbsent(StripChar(s, c), c);
  }
}
