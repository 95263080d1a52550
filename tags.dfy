/** A post's tags are stored as one comma-joined string: create and update write
    `",".join(tags)`, and update reads the stored value back with `tags.split(",")`. */
module Tags {

  /** `",".join(parts)`: the empty list joins to "", a single part to itself,
      and a joined string always starts with its first part. */
  function Join(parts: seq<string>): (s: string)
    ensures |parts| == 0 ==> s == ""
    ensures |parts| == 1 ==> s == parts[0]
    ensures |parts| >= 1 ==> parts[0] <= s
    decreases |parts|
  {
    if |parts| == 0 then ""
    else if |parts| == 1 then parts[0]
    else parts[0] + "," + Join(parts[1..])
  }

  /** `s.split(",")`: the pieces between commas, from left to right. There is
      always at least one piece (`"".split(",") == [""]`) and no piece holds a comma. */
  function Split(s: string): (parts: seq<string>)
    ensures |parts| >= 1
    ensures forall i :: 0 <= i < |parts| ==> ',' !in parts[i]
    decreases |s|
  {
    if |s| == 0 then [""]
    else
      var rest := Split(s[1..]);
      if s[0] == ',' then [""] + rest
      else [[s[0]] + rest[0]] + rest[1..]
  }

  lemma JoinCons(a: string, rest: seq<string>)
    requires |rest| >= 1
    ensures Join([a] + rest) == a + "," + Join(rest)
  {
    assert ([a] + rest)[1..] == rest;
  }

  lemma {:induction false} JoinExtendHead(c: char, rest: seq<string>)
    requires |rest| >= 1
    ensures Join([[c] + rest[0]] + rest[1..]) == [c] + Join(rest)
  {
    var head := [c] + rest[0];
    if |rest| == 1 {
      assert [head] + rest[1..] == [head];
    } else {
      var tail := rest[1..];
      JoinCons(head, tail);
      assert rest == [rest[0]] + tail;
      JoinCons(rest[0], tail);
      assert head + "," + Join(tail) == [c] + (rest[0] + "," + Join(tail));
    }
  }

  /** Joining the pieces of a stored string gives the stored string back, so an
      update that leaves tags out rewrites the same tags value. */
  lemma {:induction false} JoinSplit(s: string)
    ensures Join(Split(s)) == s
    decreases |s|
  {
    if |s| > 0 {
      var rest := Split(s[1..]);
      JoinSplit(s[1..]);
      assert s == [s[0]] + s[1..];
      if s[0] == ',' {
        JoinCons("", rest);
      } else {
        JoinExtendHead(s[0], rest);
      }
    }
  }

  lemma {:induction false} SplitNoComma(a: string)
    requires ',' !in a
    ensures Split(a) == [a]
    decreases |a|
  {
    if |a| > 0 {
      SplitNoComma(a[1..]);
      assert a == [a[0]] + a[1..];
    }
  }

  lemma {:induction false} SplitAfterPiece(a: string, t: string)
    requires ',' !in a
    ensures Split(a + "," + t) == [a] + Split(t)
    decreases |a|
  {
    var s := a + "," + t;
    if |a| == 0 {
      assert s[1..] == t;
    } else {
      assert s[1..] == a[1..] + "," + t;
      SplitAfterPiece(a[1..], t);
      assert a == [a[0]] + a[1..];
    }
  }

  /** A non-empty list of comma-free tags survives being stored and read back.
      (The empty list does not: it is stored as "" and reads back as [""].) */
  lemma {:induction false} SplitJoin(parts: seq<string>)
    requires |parts| >= 1
    requires forall i :: 0 <= i < |parts| ==> ',' !in parts[i]
    ensures Split(Join(parts)) == parts
    decreases |parts|
  {
    if |parts| == 1 {
      SplitNoComma(parts[0]);
    } else {
      SplitAfterPiece(parts[0], Join(parts[1..]));
      SplitJoin(parts[1..]);
      assert parts == [parts[0]] + parts[1..];
    }
  }
}
