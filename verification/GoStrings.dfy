/** The operations of Go's `strings` package that the plugin's text formats rest on. */
module GoStrings {

  predicate HasPrefix(s: string, prefix: string) {
    prefix <= s
  }

  predicate OccursAt(s: string, sub: string, k: int) {
    0 <= k && k + |sub| <= |s| && s[k..k + |sub|] == sub
  }

  /** Position of the first occurrence of `sub` in `s`, or -1. */
  function Index(s: string, sub: string): (i: int)
    ensures i == -1 || OccursAt(s, sub, i)
  {
    if sub <= s then 0
    else if s == "" then -1
    else
      var i := Index(s[1..], sub);
      if i < 0 then -1 else
        assert s[1..][i..i + |sub|] == s[i + 1..i + 1 + |sub|];
        i + 1
  }

  lemma {:induction false} IndexIsFirst(s: string, sub: string, k: int)
    requires OccursAt(s, sub, k)
    ensures 0 <= Index(s, sub) <= k
  {
    if k > 0 && !(sub <= s) {
      assert s[1..][k - 1..k - 1 + |sub|] == s[k..k + |sub|];
      IndexIsFirst(s[1..], sub, k - 1);
    }
  }

  predicate Contains(s: string, sub: string) {
    Index(s, sub) >= 0
  }

  lemma ContainsExactly(s: string, sub: string)
    ensures Contains(s, sub) <==> exists k :: OccursAt(s, sub, k)
  {
    if k :| OccursAt(s, sub, k) {
      IndexIsFirst(s, sub, k);
    }
  }

  lemma ContainedChars(s: string, sub: string)
    requires Contains(s, sub)
    ensures forall c :: c in sub ==> c in s
  {
    var i := Index(s, sub);
    forall c | c in sub ensures c in s {
      var j :| 0 <= j < |sub| && sub[j] == c;
      assert s[i + j] == s[i..i + |sub|][j];
    }
  }

  lemma ContainsChar(s: string, c: char)
    ensures Contains(s, [c]) <==> c in s
  {
    if Contains(s, [c]) {
      ContainedChars(s, [c]);
    } else if c in s {
      var k :| 0 <= k < |s| && s[k] == c;
      IndexIsFirst(s, [c], k);
      assert false;
    }
  }

  lemma ContainsInContext(before: string, s: string, after: string, sub: string)
    requires Contains(s, sub)
    ensures Contains(before + s + after, sub)
  {
    var i := Index(s, sub);
    var all := before + s + after;
    assert all[|before| + i..|before| + i + |sub|] == s[i..i + |sub|];
    IndexIsFirst(all, sub, |before| + i);
  }

  /** All parts of `s` between occurrences of `sep`; there is always at least one. */
  function Split(s: string, sep: string): (parts: seq<string>)
    requires sep != ""
    ensures parts != []
    decreases |s|
  {
    var i := Index(s, sep);
    if i < 0 then [s] else [s[..i]] + Split(s[i + |sep|..], sep)
  }

  function Join(parts: seq<string>, sep: string): string {
    if parts == [] then ""
    else if |parts| == 1 then parts[0]
    else parts[0] + sep + Join(parts[1..], sep)
  }

  lemma {:induction false} JoinOfSplit(s: string, sep: string)
    requires sep != ""
    ensures Join(Split(s, sep), sep) == s
    decreases |s|
  {
    hide Index;
    var i := Index(s, sep);
    if i >= 0 {
      var rest := s[i + |sep|..];
      JoinOfSplit(rest, sep);
      assert Split(s, sep)[1..] == Split(rest, sep);
      assert s == s[..i] + s[i..i + |sep|] + rest;
    }
  }

  lemma SplitWithout(s: string, c: char)
    requires c !in s
    ensures Split(s, [c]) == [s]
  {
    ContainsChar(s, c);
  }

  lemma {:induction false} SplitPieces(s: string, c: char)
    ensures forall p :: p in Split(s, [c]) ==> c !in p && forall x :: x in p ==> x in s
    decreases |s|
  {
    hide Index;
    var i := Index(s, [c]);
    if i < 0 {
      ContainsChar(s, c);
    } else {
      forall k | 0 <= k < i ensures s[k] != c {
        if s[k] == c {
          IndexIsFirst(s, [c], k);
        }
      }
      SplitPieces(s[i + 1..], c);
    }
  }

  lemma {:induction false} IndexInAppend(a: string, c: char, b: string)
    ensures Index(a + [c] + b, [c]) == if c in a then Index(a, [c]) else |a|
  {
    ContainsChar(a, c);
    if a != "" {
      assert (a + [c] + b)[1..] == a[1..] + [c] + b;
      assert c in a <==> c == a[0] || c in a[1..];
      ContainsChar(a[1..], c);
      IndexInAppend(a[1..], c, b);
    }
  }

  /** A separator character cuts the text where it stands. */
  lemma {:induction false} SplitAppend(a: string, c: char, b: string)
    ensures Split(a + [c] + b, [c]) == Split(a, [c]) + Split(b, [c])
    decreases |a|
  {
    hide Index;
    var s := a + [c] + b;
    IndexInAppend(a, c, b);
    ContainsChar(a, c);
    var i := Index(s, [c]);
    if c in a {
      var head, tail := a[..i], a[i + 1..];
      SplitAppend(tail, c, b);
      assert Split(s, [c]) == [head] + Split(tail + [c] + b, [c]) by {
        assert s[..i] == head && s[i + 1..] == tail + [c] + b;
      }
      assert Split(a, [c]) == [head] + Split(tail, [c]);
    } else {
      assert s[..i] == a && s[i + 1..] == b;
    }
  }

  /** Joining loses nothing as long as no part holds the separator. */
  lemma {:induction false} SplitOfJoin(parts: seq<string>, c: char)
    requires parts != [] && forall p :: p in parts ==> c !in p
    ensures Split(Join(parts, [c]), [c]) == parts
  {
    hide Split, Index;
    if |parts| == 1 {
      SplitWithout(parts[0], c);
    } else {
      SplitFirst(parts[0], c, Join(parts[1..], [c]));
      SplitOfJoin(parts[1..], c);
    }
  }

  lemma {:induction false} JoinSnoc(parts: seq<string>, last: string, sep: string)
    requires parts != []
    ensures Join(parts + [last], sep) == Join(parts, sep) + sep + last
  {
    if |parts| == 1 {
      assert (parts + [last])[1..] == [last];
    } else {
      assert (parts + [last])[1..] == parts[1..] + [last];
      JoinSnoc(parts[1..], last, sep);
      assert parts[0] + sep + (Join(parts[1..], sep) + sep + last)
           == parts[0] + sep + Join(parts[1..], sep) + sep + last;
    }
  }

  lemma {:induction false} JoinChars(parts: seq<string>, sep: string, c: char)
    requires c !in sep && forall p :: p in parts ==> c !in p
    ensures c !in Join(parts, sep)
  {
    if |parts| > 1 {
      JoinChars(parts[1..], sep, c);
    }
  }

  lemma SplitFirst(a: string, c: char, b: string)
    requires c !in a
    ensures Split(a + [c] + b, [c]) == [a] + Split(b, [c])
  {
    SplitAppend(a, c, b);
    SplitWithout(a, c);
  }

  /** Every part followed by a terminator: the shape all the encoders print. */
  function Terminated(parts: seq<string>, end: string): string {
    if parts == [] then "" else parts[0] + end + Terminated(parts[1..], end)
  }

  lemma {:induction false} TerminatedSnoc(parts: seq<string>, last: string, end: string)
    ensures Terminated(parts + [last], end) == Terminated(parts, end) + last + end
  {
    if parts == [] {
      assert parts + [last] == [last] && [last][1..] == [];
    } else {
      assert (parts + [last])[1..] == parts[1..] + [last];
      TerminatedSnoc(parts[1..], last, end);
    }
  }

  lemma {:induction false} TerminatedContains(parts: seq<string>, end: string, i: nat, sub: string)
    requires i < |parts| && Contains(parts[i], sub)
    ensures Contains(Terminated(parts, end), sub)
  {
    hide Contains;
    var rest := Terminated(parts[1..], end);
    if i == 0 {
      ContainsInContext("", parts[0], end + rest, sub);
      assert "" + parts[0] + (end + rest) == parts[0] + end + rest;
    } else {
      TerminatedContains(parts[1..], end, i - 1, sub);
      ContainsInContext(parts[0] + end, rest, "", sub);
      assert parts[0] + end + rest + "" == parts[0] + end + rest;
    }
  }

  lemma {:induction false} SplitTerminated(parts: seq<string>, c: char)
    requires forall p :: p in parts ==> c !in p
    ensures Split(Terminated(parts, [c]), [c]) == parts + [""]
  {
    hide Split, Index;
    if parts == [] {
      SplitWithout("", c);
    } else {
      var rest := Terminated(parts[1..], [c]);
      SplitAppend(parts[0], c, rest);
      SplitWithout(parts[0], c);
      SplitTerminated(parts[1..], c);
      assert [parts[0]] + (parts[1..] + [""]) == parts + [""];
    }
  }
}
