/**
 The JavaScript string operations the model relies on, over `seq<char>`:
 `startsWith`, `endsWith`, `includes`, `split` on one character (empty
 segments are kept), `join` and ASCII `toLowerCase`.
 */
module Text {

  /** `s.startsWith(p)`. */
  predicate StartsWith(s: string, p: string) {
    p <= s
  }

  /** `s.endsWith(suffix)`. */
  predicate EndsWith(s: string, suffix: string) {
    |suffix| <= |s| && s[|s| - |suffix|..] == suffix
  }

  /** `s.includes(t)`: `t` occurs in `s` as a contiguous block. */
  predicate Contains(s: string, t: string) {
    StartsWith(s, t) || (s != [] && Contains(s[1..], t))
  }

  /** `s.split(sep)` for a one-character separator. */
  function Split(s: string, sep: char): (parts: seq<string>)
    ensures |parts| >= 1
    ensures forall i :: 0 <= i < |parts| ==> sep !in parts[i]
  {
    if s == [] then [""]
    else if s[0] == sep then [""] + Split(s[1..], sep)
    else
      var rest := Split(s[1..], sep);
      [[s[0]] + rest[0]] + rest[1..]
  }

  /** `parts.join(sep)`; the join of no parts is the empty string. */
  function Join(parts: seq<string>, sep: char): string
  {
    if parts == [] then ""
    else if |parts| == 1 then parts[0]
    else parts[0] + [sep] + Join(parts[1..], sep)
  }

  /** The last element of a non-empty sequence (`parts[parts.length - 1]`, `pop()`). */
  function Last<T>(s: seq<T>): T
    requires |s| > 0
  {
    s[|s| - 1]
  }

  /** Splitting and joining again gives back the string. */
  lemma {:induction false} JoinSplit(s: string, sep: char)
    ensures Join(Split(s, sep), sep) == s
  {
    if s != [] {
      JoinSplit(s[1..], sep);
      var rest := Split(s[1..], sep);
      if s[0] == sep {
        assert Split(s, sep)[1..] == rest;
      } else {
        var parts := Split(s, sep);
        if |rest| == 1 {
          assert parts == [[s[0]] + rest[0]];
        } else {
          assert parts[1..] == rest[1..];
          assert Join(rest, sep) == rest[0] + [sep] + Join(rest[1..], sep);
        }
      }
    }
  }

  /** Joining separator-free parts and splitting again gives back the parts. */
  lemma {:induction false} SplitJoin(parts: seq<string>, sep: char)
    requires |parts| >= 1
    requires forall i :: 0 <= i < |parts| ==> sep !in parts[i]
    ensures Split(Join(parts, sep), sep) == parts
    decreases |parts|, |parts[0]|
  {
    if |parts| == 1 {
      SplitSegment(parts[0], sep);
    } else if parts[0] == [] {
      SplitJoin(parts[1..], sep);
      SplitJoinEmptyHead(parts, sep);
    } else {
      SplitJoin([parts[0][1..]] + parts[1..], sep);
      SplitJoinShorterHead(parts, sep);
    }
  }

  /** The step of `SplitJoin` for an empty first part: the join starts with the separator. */
  lemma SplitJoinEmptyHead(parts: seq<string>, sep: char)
    requires |parts| >= 2 && parts[0] == []
    requires Split(Join(parts[1..], sep), sep) == parts[1..]
    ensures Split(Join(parts, sep), sep) == parts
  {
    var tail := parts[1..];
    assert Join(parts, sep) == [sep] + Join(tail, sep);
    SplitSep(Join(tail, sep), sep);
    assert parts == [""] + tail;
  }

  /** A string starting with the separator splits into an empty part and the parts of the rest. */
  lemma SplitSep(t: string, sep: char)
    ensures Split([sep] + t, sep) == [""] + Split(t, sep)
  {
    assert ([sep] + t)[1..] == t;
  }

  /** The step of `SplitJoin` for a non-empty first part: the join starts with its first character. */
  lemma SplitJoinShorterHead(parts: seq<string>, sep: char)
    requires |parts| >= 2 && parts[0] != [] && sep !in parts[0]
    requires Split(Join([parts[0][1..]] + parts[1..], sep), sep) == [parts[0][1..]] + parts[1..]
    ensures Split(Join(parts, sep), sep) == parts
  {
    var p0, shorter := parts[0], [parts[0][1..]] + parts[1..];
    JoinShorterHead(parts, sep);
    SplitCons(p0[0], Join(shorter, sep), sep);
    assert [p0[0]] + p0[1..] == p0;
    assert parts == [p0] + shorter[1..];
  }

  /** Taking the first character off the first part takes it off the join. */
  lemma JoinShorterHead(parts: seq<string>, sep: char)
    requires |parts| >= 2 && parts[0] != []
    ensures Join(parts, sep) == [parts[0][0]] + Join([parts[0][1..]] + parts[1..], sep)
  {
    var p0 := parts[0];
    var shorter, rest := [p0[1..]] + parts[1..], Join(parts[1..], sep);
    assert shorter[1..] == parts[1..];
    assert Join(shorter, sep) == p0[1..] + [sep] + rest;
    assert [p0[0]] + p0[1..] == p0;
  }

  /** A string starting with a character other than the separator: the character joins the first part. */
  lemma SplitCons(c: char, t: string, sep: char)
    requires c != sep
    ensures Split([c] + t, sep) == [[c] + Split(t, sep)[0]] + Split(t, sep)[1..]
  {
    assert ([c] + t)[1..] == t;
  }

  /** A separator-free string splits into itself. */
  lemma {:induction false} SplitSegment(s: string, sep: char)
    requires sep !in s
    ensures Split(s, sep) == [s]
  {
    if s != [] {
      SplitSegment(s[1..], sep);
      assert [s[0]] + s[1..] == s;
    }
  }

  /** Joining a non-empty prefix and a non-empty suffix with one separator. */
  lemma {:induction false} JoinAppend(a: seq<string>, b: seq<string>, sep: char)
    requires |a| >= 1 && |b| >= 1
    ensures Join(a + b, sep) == Join(a, sep) + [sep] + Join(b, sep)
    decreases |a|
  {
    if |a| == 1 {
      assert (a + b)[1..] == b;
    } else {
      JoinAppend(a[1..], b, sep);
      assert (a + b)[1..] == a[1..] + b;
    }
  }

  /** A suffix `l` of `s` that is shorter than `s` comes right after a separator. */
  predicate AfterSeparator(s: string, l: string, sep: char) {
    |l| < |s| ==> s[|s| - |l| - 1] == sep
  }

  /** The last segment of a split is the part of `s` after its last separator. */
  lemma {:induction false} SplitLast(s: string, sep: char)
    ensures EndsWith(s, Last(Split(s, sep)))
    ensures AfterSeparator(s, Last(Split(s, sep)), sep)
    ensures |Split(s, sep)| > 1 ==> |Last(Split(s, sep))| < |s|
  {
    if s != [] {
      SplitLast(s[1..], sep);
      SplitLastFront(s, sep);
    } else {
      assert Last(Split(s, sep)) == "";
    }
  }

  /** `SplitLast` for `s` from `SplitLast` for `s[1..]`. */
  lemma SplitLastFront(s: string, sep: char)
    requires s != []
    requires EndsWith(s[1..], Last(Split(s[1..], sep)))
    requires AfterSeparator(s[1..], Last(Split(s[1..], sep)), sep)
    requires |Split(s[1..], sep)| > 1 ==> |Last(Split(s[1..], sep))| < |s[1..]|
    ensures EndsWith(s, Last(Split(s, sep)))
    ensures AfterSeparator(s, Last(Split(s, sep)), sep)
    ensures |Split(s, sep)| > 1 ==> |Last(Split(s, sep))| < |s|
  {
    var rest := Split(s[1..], sep);
    if |rest| == 1 {
      JoinSplit(s[1..], sep);
    }
    var parts := Split(s, sep);
    SplitLastStep(s, sep, rest, parts);
  }

  /** One character in front: the last part is the old one, or the whole string when it absorbs the first part. */
  lemma SplitLastStep(s: string, sep: char, rest: seq<string>, parts: seq<string>)
    requires s != [] && |rest| >= 1
    requires parts == if s[0] == sep then [""] + rest else [[s[0]] + rest[0]] + rest[1..]
    requires |rest| == 1 ==> rest[0] == s[1..]
    requires EndsWith(s[1..], Last(rest))
    requires AfterSeparator(s[1..], Last(rest), sep)
    requires |rest| > 1 ==> |Last(rest)| < |s| - 1
    ensures EndsWith(s, Last(parts))
    ensures AfterSeparator(s, Last(parts), sep)
    ensures |parts| > 1 ==> |Last(parts)| < |s|
  {
    if s[0] != sep && |rest| == 1 {
      assert [s[0]] + s[1..] == s;
      assert parts == [s];
    } else {
      assert Last(parts) == Last(rest) && |parts| > 1;
      SuffixOfTail(s, Last(rest));
      SharedLast(s, sep, Last(rest));
    }
  }

  /** A suffix `l` of `s` shorter than `s` follows a separator, whether inside `s[1..]` or at its very start. */
  lemma SharedLast(s: string, sep: char, l: string)
    requires |l| < |s|
    requires |l| < |s| - 1 ==> s[|s| - |l| - 1] == sep
    requires |l| == |s| - 1 ==> s[0] == sep
    ensures s[|s| - |l| - 1] == sep
  {
  }

  /** A suffix of `s[1..]` is a suffix of `s`, preceded by the same character. */
  lemma SuffixOfTail(s: string, l: string)
    requires s != [] && EndsWith(s[1..], l)
    ensures EndsWith(s, l)
    ensures |l| < |s| - 1 ==> s[|s| - |l| - 1] == s[1..][|s| - 1 - |l| - 1]
  {
    assert s[|s| - |l|..] == s[1..][|s| - 1 - |l|..];
  }

  function LowerChar(c: char): char {
    if 'A' <= c <= 'Z' then (c as int + 32) as char else c
  }

  /** `toLowerCase` restricted to ASCII letters. */
  function ToLower(s: string): (r: string)
    ensures |r| == |s|
    ensures forall i :: 0 <= i < |s| ==> r[i] == LowerChar(s[i])
  {
    if s == [] then [] else [LowerChar(s[0])] + ToLower(s[1..])
  }

  /** `t` occurs in `s` starting at index `i`. */
  predicate OccursAt(s: string, t: string, i: nat) {
    i + |t| <= |s| && s[i..i + |t|] == t
  }

  /** `t` is a contiguous block of `s`. */
  predicate Substring(t: string, s: string) {
    exists i: nat :: i <= |s| && OccursAt(s, t, i)
  }

  /** `s.includes(t)` holds exactly when `t` occurs in `s` at some index. */
  lemma {:induction false} ContainsAt(s: string, t: string)
    ensures Contains(s, t) <==> Substring(t, s)
  {
    if Contains(s, t) {
      ContainsOccurs(s, t);
    }
    if Substring(t, s) {
      var i: nat :| i <= |s| && OccursAt(s, t, i);
      OccursContains(s, t, i);
    }
  }

  lemma {:induction false} ContainsOccurs(s: string, t: string)
    requires Contains(s, t)
    ensures Substring(t, s)
  {
    if StartsWith(s, t) {
      assert s[0..|t|] == t;
      assert OccursAt(s, t, 0);
    } else {
      ContainsOccurs(s[1..], t);
      var i: nat :| i <= |s[1..]| && OccursAt(s[1..], t, i);
      assert s[i + 1..i + 1 + |t|] == s[1..][i..i + |t|];
      assert OccursAt(s, t, i + 1);
    }
  }

  lemma {:induction false} OccursContains(s: string, t: string, i: nat)
    requires OccursAt(s, t, i)
    ensures Contains(s, t)
    decreases i
  {
    if i == 0 {
      assert t <= s;
    } else {
      assert s[1..][i - 1..i - 1 + |t|] == s[i..i + |t|];
      OccursContains(s[1..], t, i - 1);
    }
  }
}
