/** Searching, splitting and joining strings at a separator character. */
module Text {

  /** The index of the first `c` in `s`, or `|s|` when there is none. */
  function FirstIndexOf(s: string, c: char): (i: nat)
    ensures i <= |s|
    ensures i < |s| ==> s[i] == c
    ensures c !in s[..i]
  {
    if s == [] then 0
    else if s[0] == c then 0
    else
      var i := 1 + FirstIndexOf(s[1..], c);
      assert s[..i] == [s[0]] + s[1..][..i - 1];
      i
  }

  lemma {:induction false} FirstIndexAbsent(s: string, c: char)
    requires c !in s
    ensures FirstIndexOf(s, c) == |s|
  {
    if s != [] {
      assert s[0] in s;
      assert forall x :: x in s[1..] ==> x in s;
      FirstIndexAbsent(s[1..], c);
    }
  }

  /** The first `c` of `p + t` is that of `t` when `p` holds none. */
  lemma {:induction false} FirstIndexAfter(p: string, t: string, c: char)
    requires c !in p
    ensures FirstIndexOf(p + t, c) == |p| + FirstIndexOf(t, c)
  {
    if p != [] {
      assert p[0] in p;
      assert forall x :: x in p[1..] ==> x in p;
      assert (p + t)[1..] == p[1..] + t;
      FirstIndexAfter(p[1..], t, c);
    } else {
      assert p + t == t;
    }
  }

  /** The pieces of `s` between the separators `c`; there is always at least one. */
  function Split(s: string, c: char): (parts: seq<string>)
    ensures |parts| >= 1
    ensures forall k :: 0 <= k < |parts| ==> c !in parts[k]
    decreases |s|
  {
    var i := FirstIndexOf(s, c);
    if i == |s| then
      assert s[..i] == s;
      [s]
    else [s[..i]] + Split(s[i + 1..], c)
  }

  /** The pieces joined with `c` between each two. */
  function Join(parts: seq<string>, c: char): string
    requires |parts| >= 1
  {
    if |parts| == 1 then parts[0] else parts[0] + [c] + Join(parts[1..], c)
  }

  lemma JoinCons(x: string, rest: seq<string>, c: char)
    requires |rest| >= 1
    ensures Join([x] + rest, c) == x + [c] + Join(rest, c)
  {
    assert ([x] + rest)[1..] == rest;
  }

  /** Splitting undoes joining when no piece holds the separator. */
  lemma {:induction false} SplitJoin(parts: seq<string>, c: char)
    requires |parts| >= 1
    requires forall k :: 0 <= k < |parts| ==> c !in parts[k]
    ensures Split(Join(parts, c), c) == parts
  {
    var s := Join(parts, c);
    if |parts| == 1 {
      FirstIndexAbsent(parts[0], c);
    } else {
      var head, tail := parts[0], parts[1..];
      var rest := Join(tail, c);
      assert s == head + ([c] + rest);
      FirstIndexAfter(head, [c] + rest, c);
      var i := FirstIndexOf(s, c);
      assert i == |head|;
      assert s[..i] == head;
      assert s[i + 1..] == rest;
      assert Split(s, c) == [head] + Split(rest, c);
      assert forall k :: 0 <= k < |tail| ==> tail[k] == parts[k + 1];
      SplitJoin(tail, c);
      assert [parts[0]] + parts[1..] == parts;
    }
  }
}
