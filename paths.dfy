/**
  The string helpers of Go's `strings` package that the router relies on,
  specialised to the path separator '/': `Split`, `Join`, `TrimLeft` and
  `TrimRight` with the cutset "/".
*/
module Paths {

  /** True when `s` contains no path separator. */
  predicate SlashFree(s: string) {
    forall i :: 0 <= i < |s| ==> s[i] != '/'
  }

  /**
    `strings.Split(s, "/")`: the pieces between separators, in order, empty
    pieces included; the empty string splits into one empty piece.
  */
  function Split(s: string): (parts: seq<string>)
    ensures |parts| >= 1
  {
    if s == [] then [[]]
    else if s[0] == '/' then [[]] + Split(s[1..])
    else
      var rest := Split(s[1..]);
      [[s[0]] + rest[0]] + rest[1..]
  }

  /** `strings.Join(parts, "/")`. */
  function Join(parts: seq<string>): string
  {
    if |parts| == 0 then []
    else if |parts| == 1 then parts[0]
    else parts[0] + "/" + Join(parts[1..])
  }

  /** `strings.TrimLeft(s, "/")`: drops every leading separator and nothing else. */
  function TrimLeftSlashes(s: string): (r: string)
    ensures |r| <= |s| && r == s[|s| - |r|..]
    ensures forall i :: 0 <= i < |s| - |r| ==> s[i] == '/'
    ensures r == [] || r[0] != '/'
  {
    if |s| > 0 && s[0] == '/' then TrimLeftSlashes(s[1..]) else s
  }

  /** `strings.TrimRight(s, "/")`: drops every trailing separator and nothing else. */
  function TrimRightSlashes(s: string): (r: string)
    ensures |r| <= |s| && r == s[..|r|]
    ensures forall i :: |r| <= i < |s| ==> s[i] == '/'
    ensures r == [] || r[|r| - 1] != '/'
  {
    if |s| > 0 && s[|s| - 1] == '/' then TrimRightSlashes(s[..|s| - 1]) else s
  }

  /** No piece produced by `Split` contains the separator. */
  lemma {:induction false} SplitPiecesSlashFree(s: string)
    ensures forall k :: 0 <= k < |Split(s)| ==> SlashFree(Split(s)[k])
  {
    if s != [] {
      SplitPiecesSlashFree(s[1..]);
    }
  }

  /** A separator-free string splits into itself alone. */
  lemma {:induction false} SplitSlashFree(s: string)
    requires SlashFree(s)
    ensures Split(s) == [s]
  {
    if s != [] {
      SplitSlashFree(s[1..]);
      assert [s[0]] + s[1..] == s;
    }
  }

  /** Splitting around one separator splits both sides independently. */
  lemma {:induction false} SplitAround(a: string, b: string)
    ensures Split(a + "/" + b) == Split(a) + Split(b)
  {
    if a == [] {
      assert a + "/" + b == "/" + b;
      assert ("/" + b)[1..] == b;
    } else {
      var s := a + "/" + b;
      assert s[0] == a[0] && s[1..] == a[1..] + "/" + b;
      SplitAround(a[1..], b);
    }
  }

  /** Joining the pieces of a split gives back the original string. */
  lemma {:induction false} JoinSplit(s: string)
    ensures Join(Split(s)) == s
  {
    if s != [] {
      JoinSplit(s[1..]);
      var rest := Split(s[1..]);
      if s[0] == '/' {
        assert Split(s) == [[]] + rest;
        assert Join(Split(s)) == [] + "/" + Join(rest);
      } else if |rest| == 1 {
        assert Join(Split(s)) == [s[0]] + rest[0];
      } else {
        assert Join(rest) == rest[0] + "/" + Join(rest[1..]);
        assert Split(s)[1..] == rest[1..];
        assert Join(Split(s)) == ([s[0]] + rest[0]) + "/" + Join(rest[1..]);
      }
    }
  }

  /** Splitting a join of separator-free pieces gives back the pieces. */
  lemma {:induction false} SplitJoin(parts: seq<string>)
    requires |parts| >= 1
    requires forall k :: 0 <= k < |parts| ==> SlashFree(parts[k])
    ensures Split(Join(parts)) == parts
  {
    SplitSlashFree(parts[0]);
    if |parts| > 1 {
      SplitJoin(parts[1..]);
      SplitAround(parts[0], Join(parts[1..]));
      assert [parts[0]] + parts[1..] == parts;
    }
  }
}
