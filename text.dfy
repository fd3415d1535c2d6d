/**
  The two pieces of Python string behaviour the script relies on: the substring
  test `t in s` and `s.split(sep)` with a one-character separator, together with
  `s.split(sep)[0]`, which the script uses for both the batch id and the row key.
*/
module Text {

  /** `p` is a prefix of `s`. */
  predicate StartsWith(s: string, p: string) {
    |p| <= |s| && s[..|p|] == p
  }

  /** Python's `t in s` on strings; the empty string occurs in every string. */
  predicate Contains(s: string, t: string)
    decreases |s|
  {
    StartsWith(s, t) || (|s| > 0 && Contains(s[1..], t))
  }

  /** `t` occurs in `s` starting at position `i`. */
  ghost predicate OccursAt(s: string, t: string, i: int) {
    0 <= i && i + |t| <= |s| && s[i..i + |t|] == t
  }

  /** An occurrence at any position is found by the scan. */
  lemma {:induction false} OccursImpliesContains(s: string, t: string, i: int)
    requires OccursAt(s, t, i)
    ensures Contains(s, t)
    decreases |s|
  {
    if i == 0 {
      assert StartsWith(s, t);
    } else {
      assert s[1..][i - 1..i - 1 + |t|] == s[i..i + |t|];
      OccursImpliesContains(s[1..], t, i - 1);
    }
  }

  /** What the scan finds is an occurrence at some position. */
  lemma {:induction false} ContainsImpliesOccurs(s: string, t: string)
    requires Contains(s, t)
    ensures exists i :: OccursAt(s, t, i)
    decreases |s|
  {
    if StartsWith(s, t) {
      assert OccursAt(s, t, 0);
    } else {
      ContainsImpliesOccurs(s[1..], t);
      var i :| OccursAt(s[1..], t, i);
      assert s[1..][i..i + |t|] == s[i + 1..i + 1 + |t|];
      assert OccursAt(s, t, i + 1);
    }
  }

  /** The scanning definition of Contains agrees with "occurs at some position". */
  lemma ContainsIffOccurs(s: string, t: string)
    ensures Contains(s, t) <==> exists i :: OccursAt(s, t, i)
  {
    if Contains(s, t) {
      ContainsImpliesOccurs(s, t);
    }
    forall i | OccursAt(s, t, i) ensures Contains(s, t) {
      OccursImpliesContains(s, t, i);
    }
  }

  /** Every character of an occurrence of `t` is a character of `s`. */
  lemma OccurrenceChars(s: string, t: string, i: int, j: int)
    requires OccursAt(s, t, i) && 0 <= j < |t|
    ensures t[j] in s
  {
    assert s[i..i + |t|][j] == s[i + j];
  }

  /** A string cannot contain `t` when it lacks one of `t`'s characters. */
  lemma MissingCharRulesOut(s: string, t: string, c: char)
    requires c in t && c !in s
    ensures !Contains(s, t)
  {
    if Contains(s, t) {
      ContainsImpliesOccurs(s, t);
      var i :| OccursAt(s, t, i);
      var j :| 0 <= j < |t| && t[j] == c;
      OccurrenceChars(s, t, i, j);
    }
  }

  /** Python's `s.split(sep)` for a one-character separator `sep`. */
  function Split(s: string, sep: char): (parts: seq<string>)
    ensures |parts| >= 1
    decreases |s|
  {
    if s == [] then [[]]
    else
      var rest := Split(s[1..], sep);
      if s[0] == sep then [[]] + rest
      else [[s[0]] + rest[0]] + rest[1..]
  }

  /** No field of a split contains the separator. */
  lemma {:induction false} SplitFacts(s: string, sep: char)
    ensures forall p :: p in Split(s, sep) ==> sep !in p
    decreases |s|
  {
    if s != [] {
      var rest := Split(s[1..], sep);
      SplitFacts(s[1..], sep);
      if s[0] != sep {
        assert forall p :: p in rest[1..] ==> p in rest;
      }
    }
  }

  /** Python's `sep.join(parts)`. */
  function Join(parts: seq<string>, sep: char): string
    requires |parts| >= 1
    decreases |parts|
  {
    if |parts| == 1 then parts[0] else parts[0] + [sep] + Join(parts[1..], sep)
  }

  /** Joining the fields of a split gives back the original string. */
  lemma {:induction false} JoinSplit(s: string, sep: char)
    ensures Join(Split(s, sep), sep) == s
    decreases |s|
  {
    if s != [] {
      var rest := Split(s[1..], sep);
      JoinSplit(s[1..], sep);
      if s[0] == sep {
        assert ([[]] + rest)[1..] == rest;
      } else {
        var parts := [[s[0]] + rest[0]] + rest[1..];
        assert parts[1..] == rest[1..];
        if |rest| > 1 {
          assert Join(rest, sep) == rest[0] + [sep] + Join(rest[1..], sep);
        }
      }
    }
  }

  /** Splitting a string made of a separator-free field, the separator and more. */
  lemma {:induction false} SplitAfterField(p: string, sep: char, tail: string)
    requires sep !in p
    ensures Split(p + [sep] + tail, sep) == [p] + Split(tail, sep)
    decreases |p|
  {
    var s := p + [sep] + tail;
    if p == [] {
      assert s[1..] == tail;
    } else {
      assert s[1..] == p[1..] + [sep] + tail;
      SplitAfterField(p[1..], sep, tail);
      assert [p[0]] + p[1..] == p;
    }
  }

  /** A string without the separator splits into itself alone. */
  lemma {:induction false} SplitNoSeparator(p: string, sep: char)
    requires sep !in p
    ensures Split(p, sep) == [p]
    decreases |p|
  {
    if p != [] {
      SplitNoSeparator(p[1..], sep);
      assert [p[0]] + p[1..] == p;
    }
  }

  /** Splitting a join of separator-free fields gives back the fields. */
  lemma {:induction false} SplitJoin(parts: seq<string>, sep: char)
    requires |parts| >= 1
    requires forall i :: 0 <= i < |parts| ==> sep !in parts[i]
    ensures Split(Join(parts, sep), sep) == parts
    decreases |parts|
  {
    if |parts| == 1 {
      SplitNoSeparator(parts[0], sep);
    } else {
      SplitJoin(parts[1..], sep);
      SplitAfterField(parts[0], sep, Join(parts[1..], sep));
      assert [parts[0]] + parts[1..] == parts;
    }
  }

  /** The fields of `s.split(sep)[0]`: a prefix, free of `sep`, followed by `sep` or the end. */
  lemma {:induction false} SplitHead(s: string, sep: char)
    ensures |Split(s, sep)[0]| <= |s|
    ensures Split(s, sep)[0] == s[..|Split(s, sep)[0]|]
    ensures |Split(s, sep)[0]| < |s| ==> s[|Split(s, sep)[0]|] == sep
    decreases |s|
  {
    if s != [] && s[0] != sep {
      SplitHead(s[1..], sep);
    }
  }

  /**
    `s.split(sep)[0]`: everything before the first `sep`, or all of `s` when
    `sep` does not occur in it.
  */
  function FirstField(s: string, sep: char): (r: string)
    ensures |r| <= |s| && r == s[..|r|]
    ensures sep !in r
    ensures |r| < |s| ==> s[|r|] == sep
  {
    SplitFacts(s, sep);
    SplitHead(s, sep);
    Split(s, sep)[0]
  }

  /** The three properties of FirstField single it out: no other string has them. */
  lemma FirstFieldUnique(s: string, sep: char, r: string)
    requires |r| <= |s| && r == s[..|r|]
    requires sep !in r
    requires |r| < |s| ==> s[|r|] == sep
    ensures r == FirstField(s, sep)
  {
    var f := FirstField(s, sep);
    assert forall k :: 0 <= k < |r| ==> s[k] != sep;
    assert forall k :: 0 <= k < |f| ==> s[k] != sep;
  }

  /** The separator occurs in `s` exactly when the first field stops short of the end. */
  lemma FirstFieldWhole(s: string, sep: char)
    ensures sep !in s <==> FirstField(s, sep) == s
  {
    var f := FirstField(s, sep);
    assert |f| < |s| ==> s[|f|] in s;
  }
}
