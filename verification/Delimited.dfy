/** Text as parts between separators: joining parts, and splitting them apart again. */
module Delimited {

  function Joined(parts: seq<string>, sep: char): string {
    if parts == [] then "" else if |parts| == 1 then parts[0] else parts[0] + [sep] + Joined(parts[1..], sep)
  }

  function Split(s: string, sep: char): (parts: seq<string>)
    ensures |parts| >= 1
  {
    if s == "" then [""]
    else
      var rest := Split(s[1..], sep);
      if s[0] == sep then [""] + rest else [[s[0]] + rest[0]] + rest[1..]
  }

  predicate Free(s: string, c: char) {
    forall i :: 0 <= i < |s| ==> s[i] != c
  }

  lemma {:induction false} SplitFree(s: string, sep: char)
    requires Free(s, sep)
    ensures Split(s, sep) == [s]
  {
    if s != "" {
      SplitFree(s[1..], sep);
      assert s == [s[0]] + s[1..];
    }
  }

  lemma {:induction false} SplitFirst(s: string, rest: string, sep: char)
    requires Free(s, sep)
    ensures Split(s + [sep] + rest, sep) == [s] + Split(rest, sep)
  {
    var t := s + [sep] + rest;
    if s == "" {
      assert t[1..] == rest;
    } else {
      SplitFirst(s[1..], rest, sep);
      assert t[1..] == s[1..] + [sep] + rest;
      assert s == [s[0]] + s[1..];
    }
  }

  lemma {:induction false} SplitJoined(parts: seq<string>, sep: char)
    requires parts != [] && forall i :: 0 <= i < |parts| ==> Free(parts[i], sep)
    ensures Split(Joined(parts, sep), sep) == parts
  {
    if |parts| == 1 {
      SplitFree(parts[0], sep);
    } else {
      SplitJoined(parts[1..], sep);
      SplitFirst(parts[0], Joined(parts[1..], sep), sep);
      assert parts == [parts[0]] + parts[1..];
    }
  }

  lemma {:induction false} JoinedFree(parts: seq<string>, sep: char, c: char)
    requires sep != c && forall i :: 0 <= i < |parts| ==> Free(parts[i], c)
    ensures Free(Joined(parts, sep), c)
  {
    if |parts| > 1 {
      JoinedFree(parts[1..], sep, c);
    }
  }

  /** The parts of `c + s`, given those of `s`. */
  function Extend(c: char, parts: seq<string>, sep: char): (r: seq<string>)
    requires parts != []
    ensures r != []
  {
    if c == sep then [""] + parts else [[c] + parts[0]] + parts[1..]
  }

  lemma SplitExtend(c: char, s: string, sep: char)
    ensures Split([c] + s, sep) == Extend(c, Split(s, sep), sep)
  {
    assert ([c] + s)[1..] == s;
  }

  /** A character in front changes no part after the first. */
  lemma ExtendKeepsTail(c: char, front: seq<string>, parts: seq<string>, sep: char)
    requires front != [] && parts != []
    ensures Extend(c, front + parts, sep) == Extend(c, front, sep) + parts
  {
    if c != sep {
      assert (front + parts)[1..] == front[1..] + parts;
    }
  }

  lemma ExtendLast(c: char, front: seq<string>, last: string, b: string, sep: char)
    ensures var parts := Extend(c, front + [last], sep);
            Extend(c, front + Split(last + b, sep), sep) == parts[..|parts| - 1] + Split(parts[|parts| - 1] + b, sep)
  {
    if front != [] {
      ExtendKeepsTail(c, front, [last], sep);
      ExtendKeepsTail(c, front, Split(last + b, sep), sep);
    } else {
      assert front + [last] == [last] && front + Split(last + b, sep) == Split(last + b, sep);
      if c != sep {
        SplitExtend(c, last + b, sep);
        assert [c] + last + b == [c] + (last + b);
      }
    }
  }

  /** The parts of `a + b`, given those of `a`. */
  function Continued(parts: seq<string>, b: string, sep: char): seq<string>
    requires parts != []
  {
    parts[..|parts| - 1] + Split(parts[|parts| - 1] + b, sep)
  }

  lemma ExtendContinued(c: char, parts: seq<string>, b: string, sep: char)
    requires parts != []
    ensures Extend(c, Continued(parts, b, sep), sep) == Continued(Extend(c, parts, sep), b, sep)
  {
    hide Split, Extend;
    ExtendLast(c, parts[..|parts| - 1], parts[|parts| - 1], b, sep);
    assert parts == parts[..|parts| - 1] + [parts[|parts| - 1]];
  }

  /** Splitting goes on where it stopped: only the last part can grow. */
  lemma {:induction false} SplitAppend(a: string, b: string, sep: char)
    ensures Split(a + b, sep) == Continued(Split(a, sep), b, sep)
  {
    if a == "" {
      assert a + b == b && "" + b == b;
    } else {
      hide Split, Extend, Continued;
      var c, s := a[0], a[1..];
      SplitAppend(s, b, sep);
      assert a == [c] + s && a + b == [c] + (s + b);
      SplitExtend(c, s, sep);
      SplitExtend(c, s + b, sep);
      ExtendContinued(c, Split(s, sep), b, sep);
    }
  }
}
