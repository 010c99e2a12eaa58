/**
 * Go's `strings.Split` with a one-character separator, its inverse, and the
 * "last segment" of an import path that main.go takes as an import's default
 * local name.
 */
module Paths {

  /**
   * `strings.Split(s, string(sep))`: the pieces between separators, always
   * at least one (the empty string splits to [""]).
   */
  function Split(s: string, sep: char): (parts: seq<string>)
    ensures |parts| >= 1
    ensures forall k :: 0 <= k < |parts| ==> sep !in parts[k]
  {
    if s == [] then [""]
    else
      var rest := Split(s[1..], sep);
      if s[0] == sep then [""] + rest
      else [[s[0]] + rest[0]] + rest[1..]
  }

  /** `strings.Join(parts, string(sep))`. */
  function Join(parts: seq<string>, sep: char): string
  {
    if parts == [] then ""
    else if |parts| == 1 then parts[0]
    else parts[0] + [sep] + Join(parts[1..], sep)
  }

  /** Joining the pieces of a split gives back the original string. */
  lemma {:induction false} JoinSplit(s: string, sep: char)
    ensures Join(Split(s, sep), sep) == s
  {
    if s != [] {
      JoinSplit(s[1..], sep);
      var rest := Split(s[1..], sep);
      if s[0] == sep {
        assert Split(s, sep) == [""] + rest;
      } else {
        if |rest| == 1 {
        } else {
          assert Split(s, sep)[1..] == rest[1..];
        }
      }
    }
  }

  /** Splitting a join of separator-free pieces gives back the pieces. */
  lemma {:induction false} SplitJoin(parts: seq<string>, sep: char)
    requires |parts| >= 1
    requires forall k :: 0 <= k < |parts| ==> sep !in parts[k]
    ensures Split(Join(parts, sep), sep) == parts
    decreases |parts|, |parts[0]|
  {
    if |parts| == 1 {
      SplitNoSep(parts[0], sep);
    } else if parts[0] == "" {
      var rest := Join(parts[1..], sep);
      SplitJoin(parts[1..], sep);
      assert Join(parts, sep) == [sep] + rest;
      ConsTail(sep, rest);
      ConsTail("", parts[1..]);
      assert [""] + parts[1..] == parts;
    } else {
      var c, head := parts[0][0], parts[0][1..];
      var shorter := [head] + parts[1..];
      ConsTail(head, parts[1..]);
      SplitJoin(shorter, sep);
      var rest := Join(shorter, sep);
      assert Join(parts, sep) == [c] + rest;
      ConsTail(c, rest);
      ConsTail(c, head);
      assert [c] + head == parts[0];
      var split := Split(rest, sep);
      assert Split([c] + rest, sep) == [[c] + split[0]] + split[1..];
      ConsTail([c] + head, parts[1..]);
      assert [[c] + head] + parts[1..] == parts;
    }
  }

  lemma ConsTail<T>(x: T, xs: seq<T>)
    ensures ([x] + xs)[0] == x && ([x] + xs)[1..] == xs
  {
  }

  lemma {:induction false} SplitNoSep(s: string, sep: char)
    requires sep !in s
    ensures Split(s, sep) == [s]
  {
    if s != [] {
      assert sep !in s[1..];
      SplitNoSep(s[1..], sep);
      assert s == [s[0]] + s[1..];
    }
  }

  /** `path[len(path)-1]` where `path := strings.Split(s, "/")`. */
  function LastSegment(s: string): string
  {
    var parts := Split(s, '/');
    parts[|parts| - 1]
  }

  /** A join of two or more pieces ends with a separator and the last piece. */
  lemma {:induction false} JoinLast(parts: seq<string>, sep: char)
    requires |parts| >= 2
    ensures Join(parts, sep) == Join(parts[..|parts| - 1], sep) + [sep] + parts[|parts| - 1]
  {
    if |parts| == 2 {
      assert parts[..1] == [parts[0]];
    } else {
      var tail := parts[1..];
      JoinLast(tail, sep);
      var init := parts[..|parts| - 1];
      assert init[1..] == tail[..|tail| - 1];
      assert Join(init, sep) == parts[0] + [sep] + Join(tail[..|tail| - 1], sep);
    }
  }

  /**
   * The last segment is the longest suffix without a slash: it holds no '/',
   * it ends `s`, and either it is all of `s` or a '/' stands just before it.
   */
  lemma LastSegmentIsSuffix(s: string)
    ensures '/' !in LastSegment(s)
    ensures |LastSegment(s)| <= |s| && LastSegment(s) == s[|s| - |LastSegment(s)|..]
    ensures |LastSegment(s)| < |s| ==> s[|s| - |LastSegment(s)| - 1] == '/'
  {
    var parts := Split(s, '/');
    var last := parts[|parts| - 1];
    JoinSplit(s, '/');
    if |parts| == 1 {
      assert s == last;
    } else {
      JoinLast(parts, '/');
      var init := Join(parts[..|parts| - 1], '/');
      assert s == init + ['/'] + last;
      assert s[|s| - |last|..] == last;
    }
  }
}
