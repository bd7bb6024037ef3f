/** The JavaScript string operations the core relies on, over `seq<char>`. */
module Strings {
  import opened Wrappers
  /** `s.startsWith(prefix)`. */
  predicate StartsWith(s: string, prefix: string) {
    |prefix| <= |s| && s[..|prefix|] == prefix
  }

  /** `s.endsWith(suffix)`, which is what a regular expression anchored only by `$` tests. */
  predicate EndsWith(s: string, suffix: string) {
    |suffix| <= |s| && s[|s| - |suffix|..] == suffix
  }

  /** `s.split(sep)` for a one-character separator: the empty string splits into `[""]`. */
  function Split(s: string, sep: char): (parts: seq<string>)
    ensures |parts| >= 1
    ensures forall i :: 0 <= i < |parts| ==> sep !in parts[i]
    decreases |s|
  {
    if s == [] then [""]
    else
      var rest := Split(s[1..], sep);
      if s[0] == sep then [""] + rest
      else [[s[0]] + rest[0]] + rest[1..]
  }

  /** `parts.join(sep)`, the inverse of Split. */
  function Join(parts: seq<string>, sep: char): string
    requires |parts| >= 1
    decreases |parts|
  {
    if |parts| == 1 then parts[0] else parts[0] + [sep] + Join(parts[1..], sep)
  }

  /** Joining the pieces of a split gives back the original string. */
  lemma {:induction false} JoinSplit(s: string, sep: char)
    ensures Join(Split(s, sep), sep) == s
    decreases |s|
  {
    if s != [] {
      JoinSplit(s[1..], sep);
      var rest := Split(s[1..], sep);
      if s[0] != sep {
        if |rest| == 1 {
          assert Split(s, sep) == [[s[0]] + rest[0]];
        } else {
          assert Split(s, sep)[1..] == rest[1..];
          assert Join(rest, sep) == rest[0] + [sep] + Join(rest[1..], sep);
        }
      } else {
        assert Split(s, sep)[1..] == rest;
      }
    }
  }

  /** Splitting a join of separator-free pieces gives back the pieces. */
  lemma {:induction false} SplitJoin(parts: seq<string>, sep: char)
    requires |parts| >= 1
    requires forall i :: 0 <= i < |parts| ==> sep !in parts[i]
    ensures Split(Join(parts, sep), sep) == parts
    decreases |parts|, |parts[0]|
  {
    var p := parts[0];
    if p == [] {
      if |parts| > 1 {
        SplitJoin(parts[1..], sep);
        assert Join(parts, sep) == [sep] + Join(parts[1..], sep);
        assert ([sep] + Join(parts[1..], sep))[1..] == Join(parts[1..], sep);
        assert [""] + parts[1..] == parts;
      }
    } else {
      var shorter := [p[1..]] + parts[1..];
      assert sep !in shorter[0] by { assert forall c :: c in p[1..] ==> c in p; }
      assert forall i :: 1 <= i < |shorter| ==> shorter[i] == parts[i];
      SplitJoin(shorter, sep);
      var j := Join(parts, sep);
      assert j == [p[0]] + Join(shorter, sep) by {
        if |parts| == 1 {
        } else {
          assert shorter[1..] == parts[1..];
        }
      }
      assert j[1..] == Join(shorter, sep);
      assert p[0] in p;
      assert Split(j, sep) == [[p[0]] + p[1..]] + parts[1..];
      assert [p[0]] + p[1..] == p;
      assert [p] + parts[1..] == parts;
    }
  }

  /** `s.replace(/c/g, d)` for single characters. */
  function ReplaceAll(s: string, c: char, d: char): (r: string)
    ensures |r| == |s|
    ensures forall i :: 0 <= i < |s| ==> r[i] == (if s[i] == c then d else s[i])
    decreases |s|
  {
    if s == [] then [] else [if s[0] == c then d else s[0]] + ReplaceAll(s[1..], c, d)
  }

  /**
   * The first candidate that is present and non-empty: how the token extractors fall through
   * from one source to the next, since an empty string is falsy in JavaScript.
   */
  function FirstNonEmpty(candidates: seq<Option<string>>): (r: Option<string>)
    ensures r.Some? ==> r.value != ""
    ensures r.Some? ==> exists i :: 0 <= i < |candidates| && candidates[i] == r &&
                                    (forall j :: 0 <= j < i ==> candidates[j].None? || candidates[j].value == "")
    ensures r.None? <==> forall i :: 0 <= i < |candidates| ==> candidates[i].None? || candidates[i].value == ""
    decreases |candidates|
  {
    if candidates == [] then None
    else if candidates[0].Some? && candidates[0].value != "" then candidates[0]
    else FirstNonEmpty(candidates[1..])
  }

  /** With two sources: the first when it is present and non-empty, else the second when it is. */
  /** A concatenation starts with its first part and ends with its last. */
  lemma Framed(a: string, b: string, c: string)
    ensures StartsWith(a + b + c, a) && EndsWith(a + b + c, c)
  {
    assert (a + b + c)[..|a|] == a;
    assert (a + b + c)[|a + b|..] == c;
  }

  lemma FirstOfTwo(first: Option<string>, second: Option<string>)
    ensures FirstNonEmpty([first, second]) ==
              if first.Some? && first.value != "" then first
              else if second.Some? && second.value != "" then second
              else None
  {
    if !(first.Some? && first.value != "") {
      assert [first, second][1..] == [second];
      assert [second][1..] == [];
    }
  }

  /** A string holding the separator splits into at least two pieces. */
  lemma {:induction false} SplitAtSeparator(s: string, sep: char)
    requires sep in s
    ensures |Split(s, sep)| >= 2
    decreases |s|
  {
    if s[0] != sep {
      assert sep in s[1..] by {
        var k :| 0 <= k < |s| && s[k] == sep;
        assert s[1..][k - 1] == sep;
      }
      SplitAtSeparator(s[1..], sep);
    }
  }

  /** The first piece is the text up to the first separator, or the whole string without one. */
  lemma {:induction false} SplitHead(s: string, sep: char)
    ensures StartsWith(s, Split(s, sep)[0])
    ensures |Split(s, sep)[0]| < |s| ==> s[|Split(s, sep)[0]|] == sep
    decreases |s|
  {
    if s != [] && s[0] != sep {
      SplitHead(s[1..], sep);
      var h := Split(s[1..], sep)[0];
      assert Split(s, sep)[0] == [s[0]] + h;
      assert s[..|h| + 1] == [s[0]] + s[1..][..|h|];
    }
  }

  /** A prefix free of the separator stays glued to the first piece. */
  lemma {:induction false} SplitPrefixHead(a: string, b: string, sep: char)
    requires sep !in a
    ensures Split(a + b, sep)[0] == a + Split(b, sep)[0]
    ensures Split(a + b, sep)[1..] == Split(b, sep)[1..]
    decreases |a|
  {
    if a != [] {
      assert (a + b)[1..] == a[1..] + b;
      assert a[0] in a;
      SplitPrefixHead(a[1..], b, sep);
      assert [a[0]] + a[1..] == a;
    } else {
      assert a + b == b;
    }
  }

  /** Splitting at the first separator: the text before it is the first piece. */
  lemma SplitAtFirst(a: string, b: string, sep: char)
    requires sep !in a
    ensures Split(a + [sep] + b, sep) == [a] + Split(b, sep)
  {
    var s := [sep] + b;
    assert s[1..] == b;
    assert Split(s, sep) == [""] + Split(b, sep);
    assert a + [sep] + b == a + s;
    SplitPrefixHead(a, s, sep);
    assert a + "" == a;
  }

  /** Splitting introduces no character: a character absent from `s` is absent from every piece. */
  lemma {:induction false} SplitKeepsOut(s: string, sep: char, c: char)
    requires c !in s
    ensures forall i :: 0 <= i < |Split(s, sep)| ==> c !in Split(s, sep)[i]
    decreases |s|
  {
    if s != [] {
      assert c !in s[1..] by {
        forall k | 0 <= k < |s[1..]| ensures s[1..][k] != c { assert s[1..][k] == s[k + 1]; }
      }
      SplitKeepsOut(s[1..], sep, c);
      var rest := Split(s[1..], sep);
      if s[0] != sep {
        assert c !in [s[0]] + rest[0];
      }
    }
  }

  /** The index of the last `c` in `s`, or -1: `s.lastIndexOf(c)`. */
  function LastIndexOf(s: string, c: char): (r: int)
    ensures -1 <= r < |s|
    ensures r == -1 <==> c !in s
    ensures r >= 0 ==> s[r] == c && c !in s[r + 1..]
    decreases |s|
  {
    if s == [] then -1
    else if s[|s| - 1] == c then |s| - 1
    else
      var r := LastIndexOf(s[..|s| - 1], c);
      assert s[r + 1..] == s[..|s| - 1][r + 1..] + [s[|s| - 1]];
      r
  }

  /** The last occurrence is the one after which the character does not appear again. */
  lemma LastIndexOfAt(s: string, c: char, k: int)
    requires 0 <= k < |s| && s[k] == c && c !in s[k + 1..]
    ensures LastIndexOf(s, c) == k
  {
  }
}
